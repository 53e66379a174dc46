/**
 * What a login answers, over every interleaving of the account store: the answer is the one
 * that the published record gave at the login's first step, whatever upgrades run meanwhile.
 */
module Logins {
  import opened Bytes
  import opened PlayerRecord
  import opened Publication

  /** The store after the first `n` calls of a run. */
  ghost function Moment(h: Hasher, s: Store, calls: seq<Call>, n: nat): Store
    requires IsRun(h, s, calls) && n <= |calls|
    decreases n
  {
    if n == 0 then s else Moment(h, Step(h, s, calls[0]), calls[1..], n - 1)
  }

  /** The path names a file whose verifier does, or does not, match the password. */
  ghost predicate Shows(h: Hasher, d: Disk, path: Path, password: seq<byte>, matches: bool) {
    path in d.files && d.files[path] < |d.inodes| && h.verify(d.inodes[d.files[path]].hash, password) == matches
  }

  /** The answer that a disk holds for a name and a password: 1, 0, or -1 when it cannot be told. */
  ghost predicate Judges(h: Hasher, d: Disk, name: seq<byte>, password: seq<byte>, failed: bool, answer: int) {
    if failed || !NameValid(name) || PathOf(name) !in d.files then answer == -1
    else (answer == 1 && Shows(h, d, PathOf(name), password, true)) || (answer == 0 && Shows(h, d, PathOf(name), password, false))
  }

  /** The answer that a login that has begun is going to give. */
  function Answer(l: LoginAt): int {
    if l.LDone? then l.result else 1
  }

  /** Call `n` is the process's first, and the disk of that moment judges it so. */
  ghost predicate Decided(h: Hasher, s: Store, calls: seq<Call>, a: nat, n: nat, name: seq<byte>, password: seq<byte>, answer: int)
    requires IsRun(h, s, calls)
  {
    && n < |calls| && calls[n].pid == a && (forall m :: 0 <= m < n ==> calls[m].pid != a)
    && Judges(h, Moment(h, s, calls, n).disk, name, password, calls[n].outcome.Fail?, answer)
  }

  /** The first call of a login settles its answer. */
  lemma {:induction false} FirstCallSettles(h: Hasher, d: Disk, p: Process, o: Outcome)
    requires p.Login? && p.login.LNew? && InodesOk(d) && FilesOk(d) && Sound(d, p)
    ensures var p' := ProcessNext(h, d, p, o);
            && p'.Login? && p'.password == p.password && !p'.login.LNew?
            && Judges(h, d, p.name, p.password, o.Fail?, Answer(p'.login))
  {
    if PathOf(p.name) in d.files {
      LoadsPublished(d, p.name);
    }
    hide Parse;
    hide Print;
    hide NameValid;
    hide PathOf;
    hide InodesOk;
    hide FilesOk;
  }

  /** No later call changes it. */
  lemma {:induction false} AnswerStays(h: Hasher, d: Disk, p: Process, o: Outcome)
    requires p.Login? && !p.login.LNew? && Sound(d, p)
    ensures var p' := ProcessNext(h, d, p, o);
            p'.Login? && p'.password == p.password && !p'.login.LNew? && Answer(p'.login) == Answer(p.login)
  {
    hide Parse;
    hide PathOf;
    hide Whole;
  }

  lemma {:induction false} AnswerAlongRun(h: Hasher, s: Store, calls: seq<Call>, a: nat) returns (n: nat)
    requires Invariant(h, s) && IsRun(h, s, calls) && a < |s.procs| && s.procs[a].Login?
    ensures |After(h, s, calls).procs| == |s.procs|
    ensures var p, r := s.procs[a], After(h, s, calls).procs[a];
            && r.Login? && r.name == p.name && r.password == p.password
            && (!p.login.LNew? ==> !r.login.LNew? && Answer(r.login) == Answer(p.login))
            && (p.login.LNew? && !r.login.LNew? ==> Decided(h, s, calls, a, n, p.name, p.password, Answer(r.login)))
    decreases calls
  {
    n := 0;
    if calls != [] {
      var c, rest, next := calls[0], calls[1..], Step(h, s, calls[0]);
      StepKeepsInvariant(h, s, c);
      var p := s.procs[a];
      if c.pid == a {
        if p.login.LNew? {
          FirstCallSettles(h, s.disk, p, c.outcome);
        } else {
          AnswerStays(h, s.disk, p, c.outcome);
        }
      }
      hide Invariant;
      hide ProcessNext;
      hide DiskNext;
      hide Judges;
      hide Answer;
      var m := AnswerAlongRun(h, next, rest, a);
      if c.pid != a {
        n := m + 1;
        if Decided(h, next, rest, a, m, p.name, p.password, Answer(After(h, s, calls).procs[a].login)) {
          assert Moment(h, s, calls, n) == Moment(h, next, rest, m);
          assert forall k :: 0 < k < n ==> calls[k] == rest[k - 1];
        }
      }
    }
  }

  /**
   * In every interleaving, with any call failing: a login that has ended gives the answer
   * that the disk held at its first call. It is 1 exactly if its path then named a file
   * whose verifier matches its password, 0 exactly if it named one whose verifier does not,
   * and -1 only if the name is invalid, the account was absent or that very call failed.
   */
  lemma {:induction false} LoginAnswersFromDisk(h: Hasher, s: Store, calls: seq<Call>, a: nat) returns (n: nat)
    requires Start(s) && IsRun(h, s, calls) && a < |s.procs| && s.procs[a].Login?
    ensures |After(h, s, calls).procs| == |s.procs| && After(h, s, calls).procs[a].Login?
    ensures var p, r := s.procs[a], After(h, s, calls).procs[a];
            && r.name == p.name && r.password == p.password
            && (r.login.LDone? ==> Decided(h, s, calls, a, n, p.name, p.password, r.login.result))
            && (r.login.LDone? && r.login.result == 1 ==> Shows(h, Moment(h, s, calls, n).disk, PathOf(p.name), p.password, true))
            && (r.login.LDone? && r.login.result == 0 ==> Shows(h, Moment(h, s, calls, n).disk, PathOf(p.name), p.password, false))
  {
    StartIsInOrder(h, s);
    n := AnswerAlongRun(h, s, calls, a);
    hide After;
    hide Moment;
    hide Invariant;
    hide PathOf;
  }

  lemma {:induction false} PasswordKeptAt(h: Hasher, s: Store, calls: seq<Call>, n: nat, path: Path, password: seq<byte>)
    requires NoCollisions(h) && Invariant(h, s) && KeepsPassword(h, s, path, password) && IsRun(h, s, calls) && n <= |calls|
    ensures Shows(h, Moment(h, s, calls, n).disk, path, password, true)
    decreases n
  {
    if n > 0 {
      StepKeepsInvariant(h, s, calls[0]);
      StepKeepsPassword(h, s, calls[0], path, password);
      hide Invariant;
      hide KeepsPassword;
      hide NoCollisions;
      hide Step;
      hide Shows;
      PasswordKeptAt(h, Step(h, s, calls[0]), calls[1..], n - 1, path, password);
    }
  }

  /**
   * An account that was there from the start answers for its password alone, however many
   * upgrades of its verifier and creations of its name run: its own password never ends in 0,
   * another never in 1, and a valid name never in -1 unless the login's first call fails.
   */
  lemma {:induction false} OnlyThePasswordLogsIn(h: Hasher, s: Store, calls: seq<Call>, a: nat, password: seq<byte>) returns (n: nat)
    requires NoCollisions(h) && Start(s) && IsRun(h, s, calls) && a < |s.procs| && s.procs[a].Login?
    requires var path := PathOf(s.procs[a].name); path in s.disk.files && h.verify(s.disk.inodes[s.disk.files[path]].hash, password)
    ensures |After(h, s, calls).procs| == |s.procs| && After(h, s, calls).procs[a].Login?
    ensures var p, l := s.procs[a], After(h, s, calls).procs[a].login;
            l.LDone? && NameValid(p.name) ==>
              && n < |calls| && calls[n].pid == a
              && (if calls[n].outcome.Fail? then l.result == -1 else l.result == if p.password == password then 1 else 0)
  {
    n := LoginAnswersFromDisk(h, s, calls, a);
    StartIsInOrder(h, s);
    var path := PathOf(s.procs[a].name);
    if n <= |calls| {
      PasswordKeptAt(h, s, calls, n, path, password);
    }
    hide After;
    hide Moment;
    hide Invariant;
    hide PathOf;
    hide NameValid;
    hide IsRun;
  }

  // ----- What a creation answers -----

  /** How far a creation has got: its record is linked, its name was taken, or something failed. */
  datatype Fate = Open | Linked(inode: nat) | Taken | Broken

  /** A creation that goes on to return 0, 1 or -1 has met its fate. */
  predicate Meets(c: CreateAt, f: Fate) {
    match c
    case CLinked(i) => f == Linked(i)
    case CRolling(_) => f == Broken
    case CFailed => f == Broken
    case CSweeping(i, r) => (r == 0 && f == Linked(i)) || (r == 1 && f == Taken) || (r == -1 && f == Broken)
    case CDone(i, r) => (r == 0 && f == Linked(i)) || (r == 1 && f == Taken) || (r == -1 && f == Broken)
    case _ => f == Open
  }

  /** What one call of the creation shows, on the disks before and after it. */
  ghost predicate Proves(before: Disk, after: Disk, p: Process, o: Outcome, f: Fate)
    requires p.Create?
  {
    var path := PathOf(p.name);
    match f
    case Open => false
    case Linked(i) => o.Go? && path !in before.files && path in after.files && after.files[path] == i
    case Taken => o.Go? && path in before.files
    case Broken => o.Fail? || !NameValid(p.name) || !HashValid(p.hash) || p.hash == []
  }

  lemma {:induction false} CallMeetsFate(h: Hasher, d: Disk, p: Process, o: Outcome, f: Fate) returns (g: Fate)
    requires p.Create? && Sound(d, p) && Meets(p.create, f)
    ensures var p' := ProcessNext(h, d, p, o);
            p'.Create? && p'.hash == p.hash && Meets(p'.create, g) && (g == f || Proves(d, DiskNext(d, p, o), p, o, g))
  {
    hide PathOf;
    hide NameValid;
    hide HashValid;
    hide Whole;
    match p.create
    case CNew => g := if o.Fail? || !NameValid(p.name) || !HashValid(p.hash) || p.hash == [] then Broken else Open;
    case CWriting(_) => g := if o.Fail? then Broken else Open;
    case CReady(i) => g := if o.Fail? then Broken else if PathOf(p.name) in d.files then Taken else Linked(i);
    case CLinked(_) => g := if o.Fail? then Broken else f;
    case _ => g := f;
  }

  lemma {:induction false} FateAlongRun(h: Hasher, s: Store, calls: seq<Call>, a: nat, f: Fate) returns (g: Fate, n: nat)
    requires IsRun(h, s, calls) && a < |s.procs| && s.procs[a].Create? && Meets(s.procs[a].create, f)
    ensures |After(h, s, calls).procs| == |s.procs|
    ensures var p, r := s.procs[a], After(h, s, calls).procs[a];
            && r.Create? && r.name == p.name && r.hash == p.hash && Meets(r.create, g)
            && (g == f || (n < |calls| && calls[n].pid == a
                           && Proves(Moment(h, s, calls, n).disk, Moment(h, s, calls, n + 1).disk, p, calls[n].outcome, g)))
    decreases calls
  {
    g, n := f, 0;
    if calls != [] {
      var c, rest, next := calls[0], calls[1..], Step(h, s, calls[0]);
      var f' := f;
      if c.pid == a {
        f' := CallMeetsFate(h, s.disk, s.procs[a], c.outcome, f);
      }
      assert Moment(h, s, calls, 1) == Moment(h, next, rest, 0);
      hide ProcessNext;
      hide DiskNext;
      hide Meets;
      var m;
      g, m := FateAlongRun(h, next, rest, a, f');
      if g != f' {
        n := m + 1;
        assert Moment(h, s, calls, n) == Moment(h, next, rest, m);
        assert Moment(h, s, calls, n + 1) == Moment(h, next, rest, m + 1);
        ProvesSame(Moment(h, next, rest, m).disk, Moment(h, next, rest, m + 1).disk, next.procs[a], s.procs[a], rest[m].outcome, g);
      }
    }
  }

  lemma {:induction false} ProvesSame(before: Disk, after: Disk, p: Process, q: Process, o: Outcome, f: Fate)
    requires p.Create? && q.Create? && p.name == q.name && p.hash == q.hash && Proves(before, after, p, o, f)
    ensures Proves(before, after, q, o, f)
  {
  }

  /**
   * In every interleaving: a creation returns 0 only if one of its calls put its own file
   * under a path that named nothing, 1 only if its path was taken when it came to link, and
   * -1 only if one of its own calls failed or its name or verifier is not acceptable.
   */
  lemma {:induction false} CreationAnswersFromDisk(h: Hasher, s: Store, calls: seq<Call>, a: nat) returns (n: nat)
    requires Start(s) && IsRun(h, s, calls) && a < |s.procs| && s.procs[a].Create?
    ensures |After(h, s, calls).procs| == |s.procs| && After(h, s, calls).procs[a].Create?
    ensures var p, r := s.procs[a], After(h, s, calls).procs[a].create;
            r.CDone? ==>
              && n < |calls| && calls[n].pid == a
              && var before, after, o := Moment(h, s, calls, n).disk, Moment(h, s, calls, n + 1).disk, calls[n].outcome;
              || (r.result == 0 && PathOf(p.name) !in before.files && PathOf(p.name) in after.files && after.files[PathOf(p.name)] == r.inode)
              || (r.result == 1 && PathOf(p.name) in before.files)
              || (r.result == -1 && (o.Fail? || !NameValid(p.name) || !HashValid(p.hash) || p.hash == []))
  {
    var g;
    g, n := FateAlongRun(h, s, calls, a, Open);
    hide After;
    hide Moment;
    hide PathOf;
    hide NameValid;
    hide HashValid;
    hide IsRun;
  }
}
