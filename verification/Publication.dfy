/**
 * Account files under concurrent creation, login and verifier upgrade. Every system call
 * of every process is one step, may fail, and interleaves freely with the others'. A path
 * is the folded account name; a temporary name belongs to one process and is never reused.
 */
module Publication {
  import opened Bytes
  import opened PlayerRecord

  type Path = seq<byte>

  /** Password hashing, left abstract: does a verifier match, and are its parameters out of date? */
  datatype Hasher = Hasher(verify: (seq<byte>, seq<byte>) -> bool, stale: seq<byte> -> bool)

  /** A file: the record it is made for and how much of it has been written. */
  datatype Inode = Inode(name: seq<byte>, hash: seq<byte>, written: nat)

  function Content(n: Inode): seq<byte> {
    var text := Print(n.name, n.hash);
    if n.written <= |text| then text[..n.written] else text
  }

  predicate Whole(n: Inode) {
    n.written == |Print(n.name, n.hash)|
  }

  function PathOf(name: seq<byte>): Path {
    LowerAll(name)
  }

  /** Account paths, temporary names (one per file, named by its inode) and the files themselves. */
  datatype Disk = Disk(files: map<Path, nat>, temps: set<nat>, inodes: seq<Inode>)

  function Allocate(d: Disk, name: seq<byte>, hash: seq<byte>): Disk {
    d.(inodes := d.inodes + [Inode(name, hash, 0)], temps := d.temps + {|d.inodes|})
  }

  function WriteSome(d: Disk, i: nat, count: nat): Disk
    requires i < |d.inodes|
  {
    var n := d.inodes[i];
    var size := |Print(n.name, n.hash)|;
    if n.written + count <= size then d.(inodes := d.inodes[i := n.(written := n.written + count)])
    else d.(inodes := d.inodes[i := n.(written := size)])
  }

  // ----- Processes -----

  datatype CreateAt =
    | CNew
    | CWriting(inode: nat)              // temporary file open
    | CReady(inode: nat)                // written, synchronised, closed
    | CLinked(inode: nat)               // visible under the account path
    | CRolling(inode: nat)              // directory sync failed; about to unlink the path
    | CSweeping(inode: nat, result: int)
    | CDone(inode: nat, result: int)
    | CFailed                           // failed before a temporary file existed

  datatype LoginAt =
    | LNew
    | LLoaded(record: Loaded)           // password verified against a stale verifier
    | LWriting(inode: nat)
    | LReady(inode: nat)
    | LSweeping(inode: nat)
    | LDone(result: int)

  datatype Process =
    | Create(name: seq<byte>, hash: seq<byte>, create: CreateAt)
    | Login(name: seq<byte>, password: seq<byte>, login: LoginAt)

  /** What the system does at a step: fail, or go on (writing `count` bytes, or yielding `hash`). */
  datatype Outcome = Fail | Go(count: nat, hash: seq<byte>)

  /** The unpublished file that a process is still preparing. */
  function Draft(p: Process): Option<nat> {
    match p
    case Create(_, _, CWriting(i)) => Some(i)
    case Create(_, _, CReady(i)) => Some(i)
    case Login(_, _, LWriting(i)) => Some(i)
    case Login(_, _, LReady(i)) => Some(i)
    case _ => None
  }

  /** The file that a creation has under its account path, from the link to a successful end. */
  function Owned(p: Process): Option<nat> {
    match p
    case Create(_, _, CLinked(i)) => Some(i)
    case Create(_, _, CRolling(i)) => Some(i)
    case Create(_, _, CSweeping(i, r)) => if r == 0 then Some(i) else None
    case Create(_, _, CDone(i, r)) => if r == 0 then Some(i) else None
    case _ => None
  }

  predicate IsReady(p: Process) {
    (p.Create? && p.create.CReady?) || (p.Login? && p.login.LReady?)
  }

  predicate Sound(d: Disk, p: Process) {
    && (Draft(p).Some? ==> Draft(p).value < |d.inodes|)
    && (PathOf(p.name) in d.files ==> d.files[PathOf(p.name)] < |d.inodes|)
  }

  /** write_new_record_atomic, one system call at a time: the process, and the disk. */
  function CreateNext(d: Disk, p: Process, o: Outcome): CreateAt
    requires p.Create? && Sound(d, p)
  {
    match p.create
    case CNew => if o.Fail? || !NameValid(p.name) || !HashValid(p.hash) || p.hash == [] then CFailed else CWriting(|d.inodes|)
    case CWriting(i) => if o.Fail? then CSweeping(i, -1) else if Whole(d.inodes[i]) then CReady(i) else p.create
    case CReady(i) => if o.Fail? then CSweeping(i, -1) else if PathOf(p.name) in d.files then CSweeping(i, 1) else CLinked(i)
    case CLinked(i) => if o.Fail? then CRolling(i) else CSweeping(i, 0)
    case CRolling(i) => CSweeping(i, -1)
    case CSweeping(i, r) => CDone(i, r)
    case _ => p.create
  }

  function CreateDisk(d: Disk, p: Process, o: Outcome): Disk
    requires p.Create? && Sound(d, p)
  {
    if o.Fail? then d
    else
      match p.create
      case CNew => if NameValid(p.name) && HashValid(p.hash) && p.hash != [] then Allocate(d, p.name, p.hash) else d
      case CWriting(i) => if Whole(d.inodes[i]) then d else WriteSome(d, i, o.count)
      case CReady(i) => if PathOf(p.name) in d.files then d else d.(files := d.files[PathOf(p.name) := i])
      case CRolling(_) => d.(files := d.files - {PathOf(p.name)})
      case CSweeping(i, _) => d.(temps := d.temps - {i})
      case _ => d
  }

  /** player_store_verify_password: load and verify, then upgrade a stale verifier by rename. */
  function LoginNext(h: Hasher, d: Disk, p: Process, o: Outcome): LoginAt
    requires p.Login? && Sound(d, p)
  {
    match p.login
    case LNew =>
      if o.Fail? || !NameValid(p.name) || PathOf(p.name) !in d.files then LDone(-1)
      else
        var loaded := Parse(Content(d.inodes[d.files[PathOf(p.name)]]), p.name);
        if loaded.None? then LDone(-1)
        else if !h.verify(loaded.value.hash, p.password) then LDone(0)
        else if !h.stale(loaded.value.hash) then LDone(1)
        else LLoaded(loaded.value)
    case LLoaded(_) => if o.Fail? then LDone(1) else LWriting(|d.inodes|)
    case LWriting(i) => if o.Fail? then LSweeping(i) else if Whole(d.inodes[i]) then LReady(i) else p.login
    case LReady(i) => LSweeping(i)
    case LSweeping(i) => LDone(1)
    case LDone(_) => p.login
  }

  function LoginDisk(d: Disk, p: Process, o: Outcome): Disk
    requires p.Login? && Sound(d, p)
  {
    if o.Fail? then d
    else
      match p.login
      case LLoaded(record) => Allocate(d, record.name, o.hash)
      case LWriting(i) => if Whole(d.inodes[i]) then d else WriteSome(d, i, o.count)
      case LReady(i) => d.(files := d.files[PathOf(p.name) := i], temps := d.temps - {i})
      case LSweeping(i) => d.(temps := d.temps - {i})
      case _ => d
  }

  function ProcessNext(h: Hasher, d: Disk, p: Process, o: Outcome): (p': Process)
    requires Sound(d, p)
    ensures p'.Create? == p.Create? && p'.name == p.name
  {
    if p.Create? then p.(create := CreateNext(d, p, o)) else p.(login := LoginNext(h, d, p, o))
  }

  function DiskNext(d: Disk, p: Process, o: Outcome): Disk
    requires Sound(d, p)
  {
    if p.Create? then CreateDisk(d, p, o) else LoginDisk(d, p, o)
  }

  /** Hashing a password, when it succeeds, gives a current verifier of that password. */
  predicate Allowed(h: Hasher, p: Process, o: Outcome) {
    p.Login? && p.login.LLoaded? && o.Go? ==> HashValid(o.hash) && h.verify(o.hash, p.password) && !h.stale(o.hash)
  }

  // ----- What every step keeps -----

  ghost predicate InodesOk(d: Disk) {
    forall i :: 0 <= i < |d.inodes| ==>
      var n := d.inodes[i];
      NameValid(n.name) && HashValid(n.hash) && n.written <= |Print(n.name, n.hash)|
  }

  /** Every account path names a complete record whose own name folds to that path. */
  ghost predicate FilesOk(d: Disk) {
    forall path :: path in d.files ==>
      d.files[path] < |d.inodes| && Whole(d.inodes[d.files[path]]) && PathOf(d.inodes[d.files[path]].name) == path
  }

  predicate Unpublished(d: Disk, i: nat) {
    forall path :: path in d.files ==> d.files[path] != i
  }

  /** The file was made for this creation's name and verifier. */
  ghost predicate Made(d: Disk, p: Process, i: nat) {
    p.Create? && i < |d.inodes| && d.inodes[i].name == p.name && d.inodes[i].hash == p.hash
  }

  ghost predicate DraftOk(h: Hasher, d: Disk, p: Process, i: nat) {
    && i < |d.inodes| && Unpublished(d, i)
    && (p.Create? ==> d.inodes[i].name == p.name && d.inodes[i].hash == p.hash)
    && (p.Login? ==> PathOf(d.inodes[i].name) == PathOf(p.name) && h.verify(d.inodes[i].hash, p.password) && !h.stale(d.inodes[i].hash))
    && (IsReady(p) ==> Whole(d.inodes[i]))
  }

  ghost predicate ProcessOk(h: Hasher, d: Disk, p: Process) {
    && (Draft(p).Some? ==> DraftOk(h, d, p, Draft(p).value))
    && (Owned(p).Some? ==> Made(d, p, Owned(p).value))
    && (p.Login? && p.login.LLoaded? ==>
          NameValid(p.login.record.name) && PathOf(p.login.record.name) == PathOf(p.name) && h.verify(p.login.record.hash, p.password))
  }

  /** Files are only ever added to, and keep the record they were made for. */
  ghost predicate Grows(d: Disk, d': Disk) {
    && |d.inodes| <= |d'.inodes|
    && forall i :: 0 <= i < |d.inodes| ==>
         && d'.inodes[i].name == d.inodes[i].name && d'.inodes[i].hash == d.inodes[i].hash
         && (Whole(d.inodes[i]) ==> d'.inodes[i] == d.inodes[i])
  }

  /** A step publishes at most the finished draft of its own process, under that process's path. */
  ghost predicate Publishes(d: Disk, p: Process, d': Disk) {
    forall path :: path in d'.files ==>
      || (path in d.files && d'.files[path] == d.files[path])
      || (path == PathOf(p.name) && IsReady(p) && Draft(p) == Some(d'.files[path]))
  }

  lemma {:induction false} WriteSomeGrows(d: Disk, i: nat, count: nat)
    requires i < |d.inodes| && InodesOk(d) && !Whole(d.inodes[i])
    ensures Grows(d, WriteSome(d, i, count)) && InodesOk(WriteSome(d, i, count))
  {
    hide Print;
    hide NameValid;
    hide HashValid;
  }

  lemma {:induction false} AllocateGrows(d: Disk, name: seq<byte>, hash: seq<byte>)
    requires InodesOk(d) && NameValid(name) && HashValid(hash)
    ensures Grows(d, Allocate(d, name, hash)) && InodesOk(Allocate(d, name, hash))
  {
    hide Print;
    hide NameValid;
    hide HashValid;
  }

  lemma {:induction false} DiskGrows(h: Hasher, d: Disk, p: Process, o: Outcome)
    requires InodesOk(d) && FilesOk(d) && ProcessOk(h, d, p) && Sound(d, p) && Allowed(h, p, o)
    ensures Grows(d, DiskNext(d, p, o)) && InodesOk(DiskNext(d, p, o)) && Publishes(d, p, DiskNext(d, p, o))
  {
    if p.Create? && p.create.CNew? && NameValid(p.name) && HashValid(p.hash) {
      AllocateGrows(d, p.name, p.hash);
    } else if p.Create? && p.create.CWriting? && o.Go? && !Whole(d.inodes[p.create.inode]) {
      WriteSomeGrows(d, p.create.inode, o.count);
    } else if p.Login? && p.login.LLoaded? && o.Go? {
      AllocateGrows(d, p.login.record.name, o.hash);
    } else if p.Login? && p.login.LWriting? && o.Go? && !Whole(d.inodes[p.login.inode]) {
      WriteSomeGrows(d, p.login.inode, o.count);
    }
    hide Print;
    hide NameValid;
    hide HashValid;
    hide PathOf;
    hide Whole;
  }

  lemma {:induction false} FilesStayOk(h: Hasher, d: Disk, p: Process, d': Disk)
    requires FilesOk(d) && ProcessOk(h, d, p) && Grows(d, d') && Publishes(d, p, d')
    ensures FilesOk(d')
  {
    hide PathOf;
    hide Print;
  }

  /** Loading from a published path gives the record of the file there. */
  lemma {:induction false} LoadsPublished(d: Disk, name: seq<byte>)
    requires InodesOk(d) && FilesOk(d) && PathOf(name) in d.files
    ensures d.files[PathOf(name)] < |d.inodes|
    ensures var n := d.inodes[d.files[PathOf(name)]];
            Parse(Content(n), name) == Some(Loaded(n.name, n.hash)) && NameValid(n.name) && PathOf(n.name) == PathOf(name)
  {
    var n := d.inodes[d.files[PathOf(name)]];
    assert Content(n) == Print(n.name, n.hash);
    ParseInvertsPrint(n.name, n.hash, name);
    hide Parse;
    hide Print;
  }

  /** The stepping process stays in order; its draft is kept, given up or new, and published only when given up. */
  lemma {:induction false} CreatorStaysOk(h: Hasher, d: Disk, p: Process, o: Outcome)
    requires p.Create? && InodesOk(d) && FilesOk(d) && ProcessOk(h, d, p) && Sound(d, p)
    ensures var p' := ProcessNext(h, d, p, o);
            ProcessOk(h, DiskNext(d, p, o), p') && (Draft(p').None? || Draft(p') == Draft(p) || Draft(p') == Some(|d.inodes|))
  {
    hide Print;
    hide NameValid;
    hide HashValid;
    hide PathOf;
  }

  lemma {:induction false} LoadingStaysOk(h: Hasher, d: Disk, p: Process, o: Outcome)
    requires p.Login? && p.login.LNew? && InodesOk(d) && FilesOk(d) && Sound(d, p)
    ensures var p' := ProcessNext(h, d, p, o); ProcessOk(h, DiskNext(d, p, o), p') && Draft(p').None?
  {
    if PathOf(p.name) in d.files {
      LoadsPublished(d, p.name);
    }
    hide Parse;
    hide Print;
    hide NameValid;
    hide PathOf;
    hide InodesOk;
    hide FilesOk;
    hide DraftOk;
  }

  lemma {:induction false} LoginStaysOk(h: Hasher, d: Disk, p: Process, o: Outcome)
    requires p.Login? && InodesOk(d) && FilesOk(d) && ProcessOk(h, d, p) && Sound(d, p) && Allowed(h, p, o)
    ensures var p' := ProcessNext(h, d, p, o);
            ProcessOk(h, DiskNext(d, p, o), p') && (Draft(p').None? || Draft(p') == Draft(p) || Draft(p') == Some(|d.inodes|))
  {
    hide Parse;
    hide Print;
    hide NameValid;
    hide HashValid;
    hide PathOf;
    hide InodesOk;
    if p.login.LNew? {
      hide ProcessOk;
      hide ProcessNext;
      hide DiskNext;
      LoadingStaysOk(h, d, p, o);
    }
  }

  /** A process that does not step is not disturbed. */
  lemma {:induction false} BystanderStaysOk(h: Hasher, d: Disk, p: Process, d': Disk, other: Process)
    requires ProcessOk(h, d, other) && Grows(d, d') && Publishes(d, p, d')
    requires Draft(other).Some? ==> Draft(p) != Draft(other)
    ensures ProcessOk(h, d', other)
  {
    if Draft(other).Some? {
      assert Unpublished(d', Draft(other).value);
    }
    hide PathOf;
    hide Print;
  }

  // ----- Runs -----

  datatype Store = Store(disk: Disk, procs: seq<Process>)

  ghost predicate DistinctDrafts(procs: seq<Process>) {
    forall a, b :: 0 <= a < |procs| && 0 <= b < |procs| && a != b && Draft(procs[a]).Some? ==> Draft(procs[a]) != Draft(procs[b])
  }

  ghost predicate Invariant(h: Hasher, s: Store) {
    && InodesOk(s.disk) && FilesOk(s.disk) && DistinctDrafts(s.procs)
    && (forall a :: 0 <= a < |s.procs| ==> ProcessOk(h, s.disk, s.procs[a]))
  }

  /** One system call of one process. */
  datatype Call = Call(pid: nat, outcome: Outcome)

  ghost predicate Possible(h: Hasher, s: Store, c: Call) {
    c.pid < |s.procs| && Sound(s.disk, s.procs[c.pid]) && Allowed(h, s.procs[c.pid], c.outcome)
  }

  ghost function Step(h: Hasher, s: Store, c: Call): Store
    requires Possible(h, s, c)
  {
    var p := s.procs[c.pid];
    Store(DiskNext(s.disk, p, c.outcome), s.procs[c.pid := ProcessNext(h, s.disk, p, c.outcome)])
  }

  lemma {:induction false} StepKeepsInvariant(h: Hasher, s: Store, c: Call)
    requires Invariant(h, s) && Possible(h, s, c)
    ensures Invariant(h, Step(h, s, c))
    ensures Grows(s.disk, Step(h, s, c).disk) && Publishes(s.disk, s.procs[c.pid], Step(h, s, c).disk)
  {
    var p := s.procs[c.pid];
    var d' := DiskNext(s.disk, p, c.outcome);
    var p' := ProcessNext(h, s.disk, p, c.outcome);
    assert ProcessOk(h, s.disk, p);
    DiskGrows(h, s.disk, p, c.outcome);
    FilesStayOk(h, s.disk, p, d');
    if p.Create? {
      CreatorStaysOk(h, s.disk, p, c.outcome);
    } else {
      LoginStaysOk(h, s.disk, p, c.outcome);
    }
    forall a | 0 <= a < |s.procs| && a != c.pid
      ensures ProcessOk(h, d', s.procs[a]) && (Draft(s.procs[a]).Some? ==> Draft(s.procs[a]) != Draft(p'))
    {
      assert ProcessOk(h, s.disk, s.procs[a]);
      BystanderStaysOk(h, s.disk, p, d', s.procs[a]);
    }
    hide DiskNext;
    hide ProcessNext;
    hide ProcessOk;
    hide Grows;
    hide Publishes;
    hide InodesOk;
    hide FilesOk;
    hide Draft;
  }

  ghost predicate IsRun(h: Hasher, s: Store, calls: seq<Call>)
    decreases calls
  {
    calls == [] || (Possible(h, s, calls[0]) && IsRun(h, Step(h, s, calls[0]), calls[1..]))
  }

  ghost function After(h: Hasher, s: Store, calls: seq<Call>): Store
    requires IsRun(h, s, calls)
    decreases calls
  {
    if calls == [] then s else After(h, Step(h, s, calls[0]), calls[1..])
  }

  /** Nobody has started; the account directory may hold complete records already. */
  ghost predicate Start(s: Store) {
    && InodesOk(s.disk) && FilesOk(s.disk)
    && (forall a :: 0 <= a < |s.procs| ==>
          (s.procs[a].Create? && s.procs[a].create.CNew?) || (s.procs[a].Login? && s.procs[a].login.LNew?))
  }

  lemma {:induction false} InvariantAlongRun(h: Hasher, s: Store, calls: seq<Call>)
    requires Invariant(h, s) && IsRun(h, s, calls)
    ensures Invariant(h, After(h, s, calls)) && Grows(s.disk, After(h, s, calls).disk)
    decreases calls
  {
    hide Grows;
    GrowsTransitive(s.disk, s.disk, s.disk);
    if calls != [] {
      StepKeepsInvariant(h, s, calls[0]);
      hide Invariant;
      hide Step;
      InvariantAlongRun(h, Step(h, s, calls[0]), calls[1..]);
      GrowsTransitive(s.disk, Step(h, s, calls[0]).disk, After(h, s, calls).disk);
    }
  }

  lemma {:induction false} GrowsTransitive(a: Disk, b: Disk, c: Disk)
    ensures Grows(a, a)
    ensures Grows(a, b) && Grows(b, c) ==> Grows(a, c)
  {
    hide Whole;
  }

  /**
   * In every interleaving, with any call failing, every account path is absent or names a
   * complete record whose name matches it up to case; loading it under any matching name
   * gives back exactly what was written; and a complete file never changes again.
   */
  lemma {:induction false} PathsNameCompleteRecords(h: Hasher, s: Store, before: seq<Call>, after: seq<Call>, name: seq<byte>)
    requires Start(s) && IsRun(h, s, before) && IsRun(h, After(h, s, before), after)
    ensures var d := After(h, s, before).disk;
            PathOf(name) in d.files ==>
              && d.files[PathOf(name)] < |d.inodes|
              && var n := d.inodes[d.files[PathOf(name)]];
              && Content(n) == Print(n.name, n.hash) && NameValid(n.name) && SameIgnoringCase(n.name, name)
              && Parse(Content(n), name) == Some(Loaded(n.name, n.hash))
              && d.files[PathOf(name)] < |After(h, After(h, s, before), after).disk.inodes|
              && After(h, After(h, s, before), after).disk.inodes[d.files[PathOf(name)]] == n
  {
    hide After;
    hide IsRun;
    hide Parse;
    hide Print;
    hide NameValid;
    StartIsInOrder(h, s);
    InvariantAlongRun(h, s, before);
    InvariantAlongRun(h, After(h, s, before), after);
    var d := After(h, s, before).disk;
    if PathOf(name) in d.files {
      LoadsPublished(d, name);
    }
  }

  // ----- At most one creation succeeds -----

  ghost predicate OneOwner(s: Store) {
    && (forall a :: 0 <= a < |s.procs| && Owned(s.procs[a]).Some? ==> PathOf(s.procs[a].name) in s.disk.files)
    && (forall a, b :: 0 <= a < b < |s.procs| && Owned(s.procs[a]).Some? && Owned(s.procs[b]).Some? ==>
          PathOf(s.procs[a].name) != PathOf(s.procs[b].name))
  }

  /** How a step changes ownership and the set of paths. */
  lemma {:induction false} OwnershipStep(h: Hasher, d: Disk, p: Process, o: Outcome)
    requires Sound(d, p)
    ensures var p', d' := ProcessNext(h, d, p, o), DiskNext(d, p, o);
            && (Owned(p').Some? ==> PathOf(p.name) in d'.files || Owned(p) == Owned(p'))
            && (Owned(p').Some? && Owned(p).None? ==> PathOf(p.name) !in d.files)
            && (Owned(p').Some? && Owned(p).Some? ==> d'.files == d.files)
            && (forall path :: path in d.files && path !in d'.files ==> path == PathOf(p.name) && Owned(p).Some? && Owned(p').None?)
  {
    hide PathOf;
    hide Parse;
    hide NameValid;
    hide HashValid;
  }

  lemma {:induction false} StepKeepsOneOwner(h: Hasher, s: Store, c: Call)
    requires OneOwner(s) && Possible(h, s, c)
    ensures OneOwner(Step(h, s, c))
  {
    OwnershipStep(h, s.disk, s.procs[c.pid], c.outcome);
    hide ProcessNext;
    hide DiskNext;
    hide PathOf;
    hide Owned;
  }

  lemma {:induction false} OneOwnerAlongRun(h: Hasher, s: Store, calls: seq<Call>)
    requires OneOwner(s) && IsRun(h, s, calls)
    ensures OneOwner(After(h, s, calls)) && |After(h, s, calls).procs| == |s.procs|
    decreases calls
  {
    if calls != [] {
      StepKeepsOneOwner(h, s, calls[0]);
      hide OneOwner;
      OneOwnerAlongRun(h, Step(h, s, calls[0]), calls[1..]);
    }
  }

  /** No two creations of names that differ at most in case both return success. */
  lemma {:induction false} AtMostOneCreationSucceeds(h: Hasher, s: Store, calls: seq<Call>, a: nat, b: nat)
    requires Start(s) && IsRun(h, s, calls) && a < |s.procs| && b < |s.procs| && a != b
    ensures |After(h, s, calls).procs| == |s.procs|
    ensures var p, q := After(h, s, calls).procs[a], After(h, s, calls).procs[b];
            p.Create? && q.Create? && p.create.CDone? && q.create.CDone? && p.create.result == q.create.result == 0 ==>
              !SameIgnoringCase(p.name, q.name)
  {
    assert OneOwner(s);
    OneOwnerAlongRun(h, s, calls);
    hide After;
    hide IsRun;
  }

  // ----- A created account keeps its password -----

  predicate Upgrading(p: Process) {
    p.Login? && (p.login.LLoaded? || p.login.LWriting? || p.login.LReady?)
  }

  /** Every creation under the path brings a verifier with current parameters, as preparing a password does. */
  ghost predicate FreshTokens(h: Hasher, procs: seq<Process>, path: Path) {
    forall a :: 0 <= a < |procs| && procs[a].Create? && PathOf(procs[a].name) == path ==> !h.stale(procs[a].hash)
  }

  /** Only an account that was there at the start is ever upgraded; a created one stays as linked. */
  ghost predicate Durable(h: Hasher, s: Store, legacy: bool, path: Path) {
    && (legacy ==> path in s.disk.files)
    && (forall a :: 0 <= a < |s.procs| && Upgrading(s.procs[a]) && PathOf(s.procs[a].name) == path ==> legacy)
    && (forall a :: 0 <= a < |s.procs| && Owned(s.procs[a]).Some? && PathOf(s.procs[a].name) == path ==>
          !legacy && path in s.disk.files && s.disk.files[path] == Owned(s.procs[a]).value)
    && (path in s.disk.files && !legacy ==>
          s.disk.files[path] < |s.disk.inodes| && !h.stale(s.disk.inodes[s.disk.files[path]].hash))
  }

  /** The paths whose file a step may change, and how. */
  lemma {:induction false} TouchesOnlyOwnPath(h: Hasher, d: Disk, p: Process, o: Outcome, path: Path)
    requires Sound(d, p)
    ensures var d' := DiskNext(d, p, o);
            && (path != PathOf(p.name) || (!IsReady(p) && !(p.Create? && p.create.CRolling?)) ==>
                  (path in d'.files <==> path in d.files) && (path in d.files ==> d'.files[path] == d.files[path]))
            && (p.Create? && path in d.files && path !in d'.files ==> p.create.CRolling?)
            && (p.Create? && path in d.files && path in d'.files ==> d'.files[path] == d.files[path])
            && (p.Login? && path in d.files ==> path in d'.files)
  {
    hide PathOf;
    hide NameValid;
    hide HashValid;
    hide Whole;
  }

  /** What the stepping process is afterwards, as far as durability is concerned. */
  lemma {:induction false} DurableStepper(h: Hasher, d: Disk, p: Process, o: Outcome)
    requires InodesOk(d) && FilesOk(d) && ProcessOk(h, d, p) && Sound(d, p)
    ensures var p', d' := ProcessNext(h, d, p, o), DiskNext(d, p, o);
            && (Upgrading(p') && !Upgrading(p) ==>
                  && PathOf(p.name) in d.files && d.files[PathOf(p.name)] < |d.inodes|
                  && h.stale(d.inodes[d.files[PathOf(p.name)]].hash))
            && (Owned(p').Some? && Owned(p).None? ==>
                  && PathOf(p.name) !in d.files && PathOf(p.name) in d'.files && d'.files[PathOf(p.name)] == Owned(p').value
                  && Owned(p') == Draft(p))
            && (Owned(p').Some? && Owned(p).Some? ==> Owned(p') == Owned(p) && d'.files == d.files)
  {
    if PathOf(p.name) in d.files {
      LoadsPublished(d, p.name);
    }
    hide Parse;
    hide PathOf;
    hide NameValid;
    hide HashValid;
    hide Print;
  }

  lemma {:induction false} NewFilesAreFresh(h: Hasher, s: Store, legacy: bool, c: Call, path: Path)
    requires Invariant(h, s) && Possible(h, s, c) && FreshTokens(h, s.procs, path) && Durable(h, s, legacy, path)
    requires path in Step(h, s, c).disk.files && !legacy
    ensures var d' := Step(h, s, c).disk;
            d'.files[path] < |d'.inodes| && !h.stale(d'.inodes[d'.files[path]].hash)
  {
    var p := s.procs[c.pid];
    StepKeepsInvariant(h, s, c);
    assert ProcessOk(h, s.disk, p);
    hide Step;
    hide PathOf;
    hide Whole;
  }

  /** A creation that owns the path is not disturbed by another process's step. */
  lemma {:induction false} OwnerIsUndisturbed(h: Hasher, s: Store, legacy: bool, c: Call, a: nat, path: Path)
    requires Possible(h, s, c) && Durable(h, s, legacy, path) && OneOwner(s)
    requires a < |s.procs| && a != c.pid && Owned(s.procs[a]).Some? && PathOf(s.procs[a].name) == path
    ensures var d' := DiskNext(s.disk, s.procs[c.pid], c.outcome);
            path in d'.files && path in s.disk.files && d'.files[path] == s.disk.files[path]
  {
    var p := s.procs[c.pid];
    TouchesOnlyOwnPath(h, s.disk, p, c.outcome, path);
    assert p.Login? && IsReady(p) ==> Upgrading(p);
    assert p.Create? && p.create.CRolling? ==> Owned(p).Some?;
    hide DiskNext;
    hide PathOf;
  }

  lemma {:induction false} LegacyStays(h: Hasher, s: Store, c: Call, path: Path)
    requires Possible(h, s, c) && Durable(h, s, true, path)
    ensures path in DiskNext(s.disk, s.procs[c.pid], c.outcome).files
  {
    TouchesOnlyOwnPath(h, s.disk, s.procs[c.pid], c.outcome, path);
    hide DiskNext;
    hide PathOf;
  }

  lemma {:induction false} StepKeepsDurable(h: Hasher, s: Store, legacy: bool, c: Call, path: Path)
    requires Invariant(h, s) && Possible(h, s, c) && FreshTokens(h, s.procs, path) && Durable(h, s, legacy, path) && OneOwner(s)
    ensures Durable(h, Step(h, s, c), legacy, path) && FreshTokens(h, Step(h, s, c).procs, path)
  {
    var p := s.procs[c.pid];
    var s' := Step(h, s, c);
    assert ProcessOk(h, s.disk, p);
    assert s'.procs[c.pid] == ProcessNext(h, s.disk, p, c.outcome);
    DurableStepper(h, s.disk, p, c.outcome);
    if legacy {
      LegacyStays(h, s, c, path);
    }
    hide ProcessNext;
    hide DiskNext;
    hide PathOf;
    hide Invariant;
    hide ProcessOk;
    hide Owned;
    hide OneOwner;
    hide Upgrading;
    hide FilesOk;
    hide InodesOk;
    if path in s'.disk.files && !legacy {
      NewFilesAreFresh(h, s, legacy, c, path);
    }
    forall a | 0 <= a < |s'.procs| && Owned(s'.procs[a]).Some? && PathOf(s'.procs[a].name) == path
      ensures !legacy && path in s'.disk.files && s'.disk.files[path] == Owned(s'.procs[a]).value
    {
      if a != c.pid {
        OwnerIsUndisturbed(h, s, legacy, c, a, path);
      }
    }
  }

  lemma {:induction false} DurableAlongRun(h: Hasher, s: Store, legacy: bool, calls: seq<Call>, path: Path)
    requires Invariant(h, s) && FreshTokens(h, s.procs, path) && Durable(h, s, legacy, path) && OneOwner(s) && IsRun(h, s, calls)
    ensures Durable(h, After(h, s, calls), legacy, path) && |After(h, s, calls).procs| == |s.procs|
    decreases calls
  {
    if calls != [] {
      var s' := Step(h, s, calls[0]);
      StepKeepsInvariant(h, s, calls[0]);
      StepKeepsOneOwner(h, s, calls[0]);
      StepKeepsDurable(h, s, legacy, calls[0], path);
      hide Invariant;
      hide Durable;
      hide OneOwner;
      hide FreshTokens;
      DurableAlongRun(h, s', legacy, calls[1..], path);
    }
  }

  lemma {:induction false} DoneStaysDone(h: Hasher, s: Store, c: Call)
    requires Possible(h, s, c)
    ensures forall a :: 0 <= a < |s.procs| && s.procs[a].Create? && s.procs[a].create.CDone? ==> Step(h, s, c).procs[a] == s.procs[a]
  {
    hide DiskNext;
  }

  /**
   * When creations under its path bring current verifiers: once a creation has returned success, its path
   * names the very file it linked, unchanged, after any further steps of anybody, so the
   * creation password goes on verifying.
   */
  lemma {:induction false} CreatedAccountIsPermanent(h: Hasher, s: Store, before: seq<Call>, after: seq<Call>, a: nat)
    requires Start(s) && IsRun(h, s, before) && IsRun(h, After(h, s, before), after)
    requires a < |After(h, s, before).procs|
    requires var p := After(h, s, before).procs[a];
             p.Create? && p.create.CDone? && p.create.result == 0 && FreshTokens(h, s.procs, PathOf(p.name))
    ensures var p := After(h, s, before).procs[a];
            var d := After(h, After(h, s, before), after).disk;
            && PathOf(p.name) in d.files && d.files[PathOf(p.name)] == p.create.inode
            && p.create.inode < |d.inodes| && Content(d.inodes[p.create.inode]) == Print(p.name, p.hash)
  {
    StartIsInOrder(h, s);
    var middle := After(h, s, before);
    ConcatRuns(h, s, before, after);
    var path := PathOf(middle.procs[a].name);
    assert Durable(h, s, path in s.disk.files, path);
    DurableAlongRun(h, s, path in s.disk.files, before + after, path);
    InvariantAlongRun(h, s, before + after);
    TailKeepsDone(h, middle, after, a);
    hide After;
    hide IsRun;
    OwnedFile(h, After(h, s, before + after), path in s.disk.files, a);
  }

  lemma {:induction false} StartIsInOrder(h: Hasher, s: Store)
    requires Start(s)
    ensures Invariant(h, s) && OneOwner(s) && forall path: Path :: Durable(h, s, path in s.disk.files, path)
  {
    hide PathOf;
    hide Whole;
    hide NameValid;
    hide HashValid;
    hide Print;
  }

  lemma {:induction false} OwnedFile(h: Hasher, s: Store, legacy: bool, a: nat)
    requires Invariant(h, s) && a < |s.procs| && Owned(s.procs[a]).Some? && Durable(h, s, legacy, PathOf(s.procs[a].name))
    ensures var p, i := s.procs[a], Owned(s.procs[a]).value;
            && PathOf(p.name) in s.disk.files && s.disk.files[PathOf(p.name)] == i && i < |s.disk.inodes|
            && p.Create? && Content(s.disk.inodes[i]) == Print(p.name, p.hash)
  {
    assert ProcessOk(h, s.disk, s.procs[a]);
    hide PathOf;
    hide Print;
  }

  lemma {:induction false} TailKeepsDone(h: Hasher, s: Store, calls: seq<Call>, a: nat)
    requires IsRun(h, s, calls) && a < |s.procs| && s.procs[a].Create? && s.procs[a].create.CDone?
    ensures a < |After(h, s, calls).procs| && After(h, s, calls).procs[a] == s.procs[a]
    decreases calls
  {
    if calls != [] {
      DoneStaysDone(h, s, calls[0]);
      TailKeepsDone(h, Step(h, s, calls[0]), calls[1..], a);
    }
  }

  lemma {:induction false} ConcatRuns(h: Hasher, s: Store, a: seq<Call>, b: seq<Call>)
    requires IsRun(h, s, a) && IsRun(h, After(h, s, a), b)
    ensures IsRun(h, s, a + b) && After(h, s, a + b) == After(h, After(h, s, a), b)
    decreases a
  {
    if a == [] {
      assert a + b == b;
    } else {
      assert (a + b)[1..] == a[1..] + b;
      hide Step;
      ConcatRuns(h, Step(h, s, a[0]), a[1..], b);
    }
  }

  // ----- An account that was there keeps its password -----

  ghost predicate NoCollisions(h: Hasher) {
    forall hash, p, q :: h.verify(hash, p) && h.verify(hash, q) ==> p == q
  }

  ghost predicate KeepsPassword(h: Hasher, s: Store, path: Path, password: seq<byte>) {
    && path in s.disk.files && s.disk.files[path] < |s.disk.inodes|
    && h.verify(s.disk.inodes[s.disk.files[path]].hash, password)
    && (forall a :: 0 <= a < |s.procs| && PathOf(s.procs[a].name) == path ==>
          Owned(s.procs[a]).None? && (Upgrading(s.procs[a]) ==> s.procs[a].password == password))
  }

  lemma {:induction false} UpgraderKnowsPassword(h: Hasher, d: Disk, p: Process, o: Outcome, password: seq<byte>)
    requires NoCollisions(h) && InodesOk(d) && FilesOk(d) && Sound(d, p) && PathOf(p.name) in d.files
    requires d.files[PathOf(p.name)] < |d.inodes| && h.verify(d.inodes[d.files[PathOf(p.name)]].hash, password)
    requires Owned(p).None? && (Upgrading(p) ==> p.password == password)
    ensures var p' := ProcessNext(h, d, p, o);
            Owned(p').None? && (Upgrading(p') ==> p'.password == password)
  {
    LoadsPublished(d, p.name);
    hide Parse;
    hide PathOf;
    hide NameValid;
    hide HashValid;
    hide Print;
  }

  lemma {:induction false} FileKeepsPassword(h: Hasher, s: Store, c: Call, path: Path, password: seq<byte>)
    requires Invariant(h, s) && Possible(h, s, c) && KeepsPassword(h, s, path, password)
    ensures var d' := Step(h, s, c).disk;
            path in d'.files && d'.files[path] < |d'.inodes| && h.verify(d'.inodes[d'.files[path]].hash, password)
  {
    var p := s.procs[c.pid];
    StepKeepsInvariant(h, s, c);
    TouchesOnlyOwnPath(h, s.disk, p, c.outcome, path);
    assert ProcessOk(h, s.disk, p);
    assert p.Create? && p.create.CRolling? ==> Owned(p).Some?;
    assert p.Login? && IsReady(p) ==> Upgrading(p);
    hide DiskNext;
    hide ProcessNext;
    hide PathOf;
    hide Whole;
    hide Print;
  }

  lemma {:induction false} StepKeepsPassword(h: Hasher, s: Store, c: Call, path: Path, password: seq<byte>)
    requires NoCollisions(h) && Invariant(h, s) && Possible(h, s, c) && KeepsPassword(h, s, path, password)
    ensures KeepsPassword(h, Step(h, s, c), path, password)
  {
    var p := s.procs[c.pid];
    FileKeepsPassword(h, s, c, path, password);
    if PathOf(p.name) == path {
      UpgraderKnowsPassword(h, s.disk, p, c.outcome, password);
    }
    hide DiskNext;
    hide ProcessNext;
    hide Invariant;
    hide PathOf;
    hide Owned;
    hide Upgrading;
  }

  /**
   * An account whose record was there from the start keeps verifying its password through
   * any number of concurrent upgrades and failed creations of the same name.
   */
  lemma {:induction false} UpgradesKeepThePassword(h: Hasher, s: Store, calls: seq<Call>, path: Path, password: seq<byte>)
    requires NoCollisions(h) && Start(s) && IsRun(h, s, calls)
    requires path in s.disk.files && h.verify(s.disk.inodes[s.disk.files[path]].hash, password)
    ensures var d := After(h, s, calls).disk;
            path in d.files && d.files[path] < |d.inodes| && h.verify(d.inodes[d.files[path]].hash, password)
  {
    StartIsInOrder(h, s);
    KeepsPasswordAlongRun(h, s, calls, path, password);
  }

  lemma {:induction false} KeepsPasswordAlongRun(h: Hasher, s: Store, calls: seq<Call>, path: Path, password: seq<byte>)
    requires NoCollisions(h) && Invariant(h, s) && KeepsPassword(h, s, path, password) && IsRun(h, s, calls)
    ensures KeepsPassword(h, After(h, s, calls), path, password)
    decreases calls
  {
    if calls != [] {
      StepKeepsInvariant(h, s, calls[0]);
      StepKeepsPassword(h, s, calls[0], path, password);
      hide Invariant;
      hide KeepsPassword;
      hide NoCollisions;
      KeepsPasswordAlongRun(h, Step(h, s, calls[0]), calls[1..], path, password);
    }
  }

  // ----- Without current verifiers it can lose it -----

  lemma {:induction false} OneCall(h: Hasher, s: Store, c: Call)
    requires Possible(h, s, c)
    ensures IsRun(h, s, [c]) && After(h, s, [c]) == Step(h, s, c)
  {
    hide Step;
    assert [c][1..] == [];
    assert After(h, Step(h, s, c), []) == Step(h, s, c);
  }

  lemma {:induction false} Extend(h: Hasher, s: Store, calls: seq<Call>, c: Call)
    requires IsRun(h, s, calls) && Possible(h, After(h, s, calls), c)
    ensures IsRun(h, s, calls + [c]) && After(h, s, calls + [c]) == Step(h, After(h, s, calls), c)
  {
    OneCall(h, After(h, s, calls), c);
    ConcatRuns(h, s, calls, [c]);
  }

  /** The store after a process has written and closed a new file for this record. */
  function Drafted(s: Store, pid: nat, name: seq<byte>, hash: seq<byte>, p: Process): Store
    requires pid < |s.procs|
  {
    var d := s.disk;
    Store(Disk(d.files, d.temps + {|d.inodes|}, d.inodes + [Inode(name, hash, |Print(name, hash)|)]), s.procs[pid := p])
  }

  /** Undisturbed, a creation gets its record written. */
  lemma {:induction false} CreateDrafts(h: Hasher, s: Store, pid: nat) returns (calls: seq<Call>)
    requires pid < |s.procs| && s.procs[pid].Create? && s.procs[pid].create.CNew?
    requires var p := s.procs[pid]; NameValid(p.name) && HashValid(p.hash) && p.hash != [] && PathOf(p.name) !in s.disk.files
    ensures var p := s.procs[pid];
            && IsRun(h, s, calls)
            && After(h, s, calls) == Drafted(s, pid, p.name, p.hash, p.(create := CReady(|s.disk.inodes|)))
  {
    var p, i := s.procs[pid], |s.disk.inodes|;
    var size := |Print(p.name, p.hash)|;
    var go := Call(pid, Go(size, []));
    var writing := p.(create := CWriting(i));
    var s1 := Store(Allocate(s.disk, p.name, p.hash), s.procs[pid := writing]);
    var s2 := Drafted(s, pid, p.name, p.hash, writing);
    assert size > 0;
    assert Step(h, s, go) == s1;
    OneCall(h, s, go);
    assert WriteSome(s1.disk, i, size) == s2.disk;
    assert s1.procs[pid := writing] == s1.procs;
    assert Step(h, s1, go) == s2;
    Extend(h, s, [go], go);
    assert s2.procs[pid := p.(create := CReady(i))] == s.procs[pid := p.(create := CReady(i))];
    assert Step(h, s2, go) == Drafted(s, pid, p.name, p.hash, p.(create := CReady(i)));
    Extend(h, s, [go] + [go], go);
    calls := [go] + [go] + [go];
  }

  /** A login that has loaded a stale verifier gets the upgraded record written. */
  lemma {:induction false} LoginDrafts(h: Hasher, s: Store, pid: nat, hash: seq<byte>) returns (calls: seq<Call>)
    requires pid < |s.procs| && s.procs[pid].Login? && s.procs[pid].login.LLoaded?
    requires var p := s.procs[pid]; HashValid(hash) && h.verify(hash, p.password) && !h.stale(hash)
    requires PathOf(s.procs[pid].name) !in s.disk.files || s.disk.files[PathOf(s.procs[pid].name)] < |s.disk.inodes|
    ensures var p := s.procs[pid];
            && IsRun(h, s, calls)
            && After(h, s, calls) == Drafted(s, pid, p.login.record.name, hash, p.(login := LReady(|s.disk.inodes|)))
  {
    var p, i := s.procs[pid], |s.disk.inodes|;
    var name := p.login.record.name;
    var size := |Print(name, hash)|;
    var go := Call(pid, Go(size, hash));
    var writing := p.(login := LWriting(i));
    var s1 := Store(Allocate(s.disk, name, hash), s.procs[pid := writing]);
    var s2 := Drafted(s, pid, name, hash, writing);
    assert size > 0;
    assert Step(h, s, go) == s1;
    OneCall(h, s, go);
    assert WriteSome(s1.disk, i, size) == s2.disk;
    assert s1.procs[pid := writing] == s1.procs;
    assert Step(h, s1, go) == s2;
    Extend(h, s, [go], go);
    assert s2.procs[pid := p.(login := LReady(i))] == s.procs[pid := p.(login := LReady(i))];
    assert Step(h, s2, go) == Drafted(s, pid, name, hash, p.(login := LReady(i)));
    Extend(h, s, [go] + [go], go);
    calls := [go] + [go] + [go];
  }

  /** The cast of the example: two creations of one name and a login between them. */
  function Scene(disk: Disk, name: seq<byte>, first: seq<byte>, one: CreateAt, password: seq<byte>, login: LoginAt,
                 second: seq<byte>, two: CreateAt): Store
  {
    Store(disk, [Create(name, first, one), Login(name, password, login), Create(name, second, two)])
  }

  /** The first creation links its record and fails to synchronise the directory; the login has loaded it. */
  lemma {:induction false} ActOne(h: Hasher, name: seq<byte>, t1: seq<byte>, p1: seq<byte>, t2: seq<byte>) returns (calls: seq<Call>)
    requires NameValid(name) && HashValid(t1) && t1 != [] && h.verify(t1, p1) && h.stale(t1)
    ensures var s := Scene(Disk(map[], {}, []), name, t1, CNew, p1, LNew, t2, CNew);
            && IsRun(h, s, calls)
            && After(h, s, calls) == Scene(Disk(map[PathOf(name) := 0], {0}, [Inode(name, t1, |Print(name, t1)|)]),
                                           name, t1, CRolling(0), p1, LLoaded(Loaded(name, t1)), t2, CNew)
  {
    hide IsRun;
    hide After;
    hide PathOf;
    hide Print;
    hide NameValid;
    hide HashValid;
    hide Parse;
    var s := Scene(Disk(map[], {}, []), name, t1, CNew, p1, LNew, t2, CNew);
    var go := Go(0, []);
    var n := Inode(name, t1, |Print(name, t1)|);
    calls := CreateDrafts(h, s, 0);
    var ready := Scene(Disk(map[], {0}, [n]), name, t1, CReady(0), p1, LNew, t2, CNew);
    assert After(h, s, calls) == ready;
    var d := Disk(map[PathOf(name) := 0], {0}, [n]);
    var linked := Scene(d, name, t1, CLinked(0), p1, LNew, t2, CNew);
    assert Step(h, ready, Call(0, go)) == linked;
    Extend(h, s, calls, Call(0, go));
    calls := calls + [Call(0, go)];
    var rolling := Scene(d, name, t1, CRolling(0), p1, LNew, t2, CNew);
    assert Step(h, linked, Call(0, Fail)) == rolling;
    Extend(h, s, calls, Call(0, Fail));
    calls := calls + [Call(0, Fail)];
    ParseInvertsPrint(name, t1, name);
    assert Content(n) == Print(name, t1);
    assert Step(h, rolling, Call(1, go)) == Scene(d, name, t1, CRolling(0), p1, LLoaded(Loaded(name, t1)), t2, CNew);
    Extend(h, s, calls, Call(1, go));
    calls := calls + [Call(1, go)];
  }

  /** The login writes its upgrade; the first creation takes its path back. */
  lemma {:induction false} ActTwo(h: Hasher, name: seq<byte>, t1: seq<byte>, p1: seq<byte>, t2: seq<byte>, t3: seq<byte>)
    returns (calls: seq<Call>)
    requires NameValid(name) && HashValid(t3) && h.verify(t3, p1) && !h.stale(t3)
    ensures var n1, n3 := Inode(name, t1, |Print(name, t1)|), Inode(name, t3, |Print(name, t3)|);
            var s := Scene(Disk(map[PathOf(name) := 0], {0}, [n1]), name, t1, CRolling(0), p1, LLoaded(Loaded(name, t1)), t2, CNew);
            && IsRun(h, s, calls)
            && After(h, s, calls) == Scene(Disk(map[], {0, 1}, [n1, n3]), name, t1, CSweeping(0, -1), p1, LReady(1), t2, CNew)
  {
    hide IsRun;
    hide After;
    hide PathOf;
    hide Print;
    hide NameValid;
    hide HashValid;
    hide Parse;
    var n1, n3 := Inode(name, t1, |Print(name, t1)|), Inode(name, t3, |Print(name, t3)|);
    var d := Disk(map[PathOf(name) := 0], {0}, [n1]);
    var s := Scene(d, name, t1, CRolling(0), p1, LLoaded(Loaded(name, t1)), t2, CNew);
    calls := LoginDrafts(h, s, 1, t3);
    var upgraded := Scene(Disk(d.files, {0, 1}, [n1, n3]), name, t1, CRolling(0), p1, LReady(1), t2, CNew);
    assert After(h, s, calls) == upgraded;
    var undo := Call(0, Go(0, []));
    assert d.files - {PathOf(name)} == map[];
    assert Step(h, upgraded, undo) == Scene(Disk(map[], {0, 1}, [n1, n3]), name, t1, CSweeping(0, -1), p1, LReady(1), t2, CNew);
    Extend(h, s, calls, undo);
    calls := calls + [undo];
  }

  /** The second creation succeeds; then the login's rename replaces its record. */
  lemma {:induction false} ActThree(h: Hasher, name: seq<byte>, t1: seq<byte>, p1: seq<byte>, t2: seq<byte>, t3: seq<byte>)
    returns (calls: seq<Call>)
    requires NameValid(name) && HashValid(t2) && t2 != []
    ensures var n1, n2, n3 := Inode(name, t1, |Print(name, t1)|), Inode(name, t2, |Print(name, t2)|), Inode(name, t3, |Print(name, t3)|);
            var s := Scene(Disk(map[], {0, 1}, [n1, n3]), name, t1, CSweeping(0, -1), p1, LReady(1), t2, CNew);
            && IsRun(h, s, calls)
            && After(h, s, calls) == Scene(Disk(map[PathOf(name) := 1], {0}, [n1, n3, n2]),
                                           name, t1, CSweeping(0, -1), p1, LSweeping(1), t2, CDone(2, 0))
  {
    hide IsRun;
    hide After;
    hide PathOf;
    hide Print;
    hide NameValid;
    hide HashValid;
    hide Parse;
    var n1, n2, n3 := Inode(name, t1, |Print(name, t1)|), Inode(name, t2, |Print(name, t2)|), Inode(name, t3, |Print(name, t3)|);
    var s := Scene(Disk(map[], {0, 1}, [n1, n3]), name, t1, CSweeping(0, -1), p1, LReady(1), t2, CNew);
    var mine, rename := Call(2, Go(0, [])), Call(1, Go(0, []));
    calls := CreateDrafts(h, s, 2);
    var ready := Scene(Disk(map[], {0, 1, 2}, [n1, n3, n2]), name, t1, CSweeping(0, -1), p1, LReady(1), t2, CReady(2));
    assert After(h, s, calls) == ready;
    var d := Disk(map[PathOf(name) := 2], {0, 1, 2}, [n1, n3, n2]);
    var linked := Scene(d, name, t1, CSweeping(0, -1), p1, LReady(1), t2, CLinked(2));
    assert Step(h, ready, mine) == linked;
    Extend(h, s, calls, mine);
    calls := calls + [mine];
    var synced := Scene(d, name, t1, CSweeping(0, -1), p1, LReady(1), t2, CSweeping(2, 0));
    assert Step(h, linked, mine) == synced;
    Extend(h, s, calls, mine);
    calls := calls + [mine];
    var done := Scene(Disk(d.files, {0, 1}, d.inodes), name, t1, CSweeping(0, -1), p1, LReady(1), t2, CDone(2, 0));
    assert Step(h, synced, mine) == done;
    Extend(h, s, calls, mine);
    calls := calls + [mine];
    assert d.files[PathOf(name) := 1] == map[PathOf(name) := 1];
    assert Step(h, done, rename)
        == Scene(Disk(map[PathOf(name) := 1], {0}, d.inodes), name, t1, CSweeping(0, -1), p1, LSweeping(1), t2, CDone(2, 0));
    Extend(h, s, calls, rename);
    calls := calls + [rename];
  }

  /**
   * Current verifiers are needed: for every stale verifier `t1` there is a run, with one
   * failed directory sync, after which a creation of the same name has returned success and
   * yet its path names an upgrade of `t1`, which the creation's own password does not match.
   */
  lemma {:induction false} StaleVerifierCanReplaceAccount(
    h: Hasher, name: seq<byte>, t1: seq<byte>, p1: seq<byte>, t2: seq<byte>, p2: seq<byte>, t3: seq<byte>)
    returns (s: Store, calls: seq<Call>)
    requires NameValid(name) && HashValid(t1) && HashValid(t2) && HashValid(t3) && t1 != [] && t2 != []
    requires h.verify(t1, p1) && h.stale(t1) && h.verify(t2, p2)
    requires h.verify(t3, p1) && !h.stale(t3) && !h.verify(t3, p2)
    ensures Start(s) && IsRun(h, s, calls)
    ensures var end := After(h, s, calls);
            && |end.procs| == 3 && end.procs[2] == Create(name, t2, CDone(2, 0))
            && PathOf(name) in end.disk.files && end.disk.files[PathOf(name)] == 1 < |end.disk.inodes|
            && !h.verify(end.disk.inodes[1].hash, p2)
  {
    hide *;
    s := Scene(Disk(map[], {}, []), name, t1, CNew, p1, LNew, t2, CNew);
    var one := ActOne(h, name, t1, p1, t2);
    var two := ActTwo(h, name, t1, p1, t2, t3);
    var three := ActThree(h, name, t1, p1, t2, t3);
    ConcatRuns(h, s, one, two);
    ConcatRuns(h, s, one + two, three);
    calls := one + two + three;
    SceneStarts(name, t1, p1, t2);
    SceneEnds(name, t1, p1, t2, t3);
  }

  lemma {:induction false} SceneStarts(name: seq<byte>, t1: seq<byte>, p1: seq<byte>, t2: seq<byte>)
    ensures Start(Scene(Disk(map[], {}, []), name, t1, CNew, p1, LNew, t2, CNew))
  {
  }

  lemma {:induction false} SceneEnds(name: seq<byte>, t1: seq<byte>, p1: seq<byte>, t2: seq<byte>, t3: seq<byte>)
    ensures var n1, n2, n3 := Inode(name, t1, |Print(name, t1)|), Inode(name, t2, |Print(name, t2)|), Inode(name, t3, |Print(name, t3)|);
            var end := Scene(Disk(map[PathOf(name) := 1], {0}, [n1, n3, n2]), name, t1, CSweeping(0, -1), p1, LSweeping(1), t2, CDone(2, 0));
            && |end.procs| == 3 && end.procs[2] == Create(name, t2, CDone(2, 0))
            && PathOf(name) in end.disk.files && end.disk.files[PathOf(name)] == 1 < |end.disk.inodes|
            && end.disk.inodes[1].hash == t3
  {
  }

  // ----- Temporary files -----

  /** The temporary name that a call may still have on disk. */
  function Holds(p: Process): Option<nat> {
    match p
    case Create(_, _, CWriting(i)) => Some(i)
    case Create(_, _, CReady(i)) => Some(i)
    case Create(_, _, CLinked(i)) => Some(i)
    case Create(_, _, CRolling(i)) => Some(i)
    case Create(_, _, CSweeping(i, _)) => Some(i)
    case Login(_, _, LWriting(i)) => Some(i)
    case Login(_, _, LReady(i)) => Some(i)
    case Login(_, _, LSweeping(i)) => Some(i)
    case _ => None
  }

  predicate Sweeping(p: Process) {
    (p.Create? && p.create.CSweeping?) || (p.Login? && p.login.LSweeping?)
  }

  predicate Ended(p: Process) {
    if p.Create? then p.create.CDone? || p.create.CFailed? else p.login.LDone?
  }

  /** Every new temporary name belongs to a call in progress. */
  ghost predicate Cared(s: Store, found: set<nat>) {
    forall t :: t in s.disk.temps && t !in found ==> exists a :: 0 <= a < |s.procs| && Holds(s.procs[a]) == Some(t)
  }

  /** No call fails to remove its temporary name at the end. */
  ghost predicate AllSwept(h: Hasher, s: Store, calls: seq<Call>)
    requires IsRun(h, s, calls)
    decreases calls
  {
    calls == [] || ((Sweeping(s.procs[calls[0].pid]) ==> calls[0].outcome.Go?) && AllSwept(h, Step(h, s, calls[0]), calls[1..]))
  }

  lemma {:induction false} TemporaryStep(h: Hasher, d: Disk, p: Process, o: Outcome)
    requires Sound(d, p) && (Sweeping(p) ==> o.Go?)
    ensures var p', d' := ProcessNext(h, d, p, o), DiskNext(d, p, o);
            forall t :: t in d'.temps ==> Holds(p') == Some(t) || (t in d.temps && Holds(p) != Some(t))
  {
    hide PathOf;
    hide Parse;
    hide NameValid;
    hide HashValid;
    hide Print;
  }

  lemma {:induction false} StepKeepsCared(h: Hasher, s: Store, c: Call, found: set<nat>)
    requires Cared(s, found) && Possible(h, s, c) && (Sweeping(s.procs[c.pid]) ==> c.outcome.Go?)
    ensures Cared(Step(h, s, c), found)
  {
    var p, s' := s.procs[c.pid], Step(h, s, c);
    TemporaryStep(h, s.disk, p, c.outcome);
    hide ProcessNext;
    hide DiskNext;
    hide Holds;
    hide PathOf;
    forall t | t in s'.disk.temps && t !in found ensures exists a :: 0 <= a < |s'.procs| && Holds(s'.procs[a]) == Some(t) {
      if Holds(s'.procs[c.pid]) != Some(t) {
        var a :| 0 <= a < |s.procs| && Holds(s.procs[a]) == Some(t);
        assert a != c.pid && Holds(s'.procs[a]) == Some(t);
      }
    }
  }

  lemma {:induction false} CaredAlongRun(h: Hasher, s: Store, calls: seq<Call>, found: set<nat>)
    requires Cared(s, found) && IsRun(h, s, calls) && AllSwept(h, s, calls)
    ensures Cared(After(h, s, calls), found)
    decreases calls
  {
    if calls != [] {
      StepKeepsCared(h, s, calls[0], found);
      hide Cared;
      hide Step;
      CaredAlongRun(h, Step(h, s, calls[0]), calls[1..], found);
    }
  }

  /**
   * Whatever else fails, and in whatever order the calls go on: unless the removal itself
   * fails, no temporary file outlives the call that made it.
   */
  lemma {:induction false} NoTemporaryStays(h: Hasher, s: Store, calls: seq<Call>)
    requires Start(s) && IsRun(h, s, calls) && AllSwept(h, s, calls)
    requires forall a :: 0 <= a < |After(h, s, calls).procs| ==> Ended(After(h, s, calls).procs[a])
    ensures After(h, s, calls).disk.temps <= s.disk.temps
  {
    CaredAlongRun(h, s, calls, s.disk.temps);
    hide After;
    hide IsRun;
    hide AllSwept;
  }
}
