/**
 * Password guessing against one account, over every interleaving of the workers. A worker
 * asks the policy, verifies the password outside the policy's lock, and reports the outcome
 * in a later step, so several attempts can be under way when the account locks.
 */
module Lockout {
  import opened Bytes
  import opened LruTable
  import opened SlidingWindow
  import opened AbusePolicy

  /** The server's cap on simultaneous connections. */
  const WORKERS := 64

  /** An allowed attempt whose verdict has not been reported yet. */
  datatype Claim = Claim(peer: seq<byte>, name: seq<byte>)

  /** `noted` counts the failures noted for the watched account since its record was last reset. */
  datatype World = World(policy: Policy, claims: seq<Option<Claim>>, noted: nat)

  datatype Step =
    | Ask(worker: nat, peer: seq<byte>, name: seq<byte>)
    | Recheck(peer: seq<byte>, name: seq<byte>)
    | Reject(worker: nat)
    | Accept(worker: nat)
    | Welcome(peer: seq<byte>, name: seq<byte>)  // an account was created: a success without an attempt
    | Unrelated(event: Event)

  predicate Possible(w: World, step: Step) {
    match step
    case Ask(worker, _, name) => worker < |w.claims| && w.claims[worker].None? && name != []
    case Recheck(_, name) => name != []
    case Reject(worker) => worker < |w.claims| && w.claims[worker].Some?
    case Accept(worker) => worker < |w.claims| && w.claims[worker].Some?
    case Welcome(_, name) => name != []
    case Unrelated(event) => event.Connect? || event.Create?
  }

  /** The policy call that a step makes. */
  function Call(w: World, step: Step): Event
    requires Possible(w, step)
  {
    match step
    case Ask(_, peer, name) => Attempt(peer, name)
    case Recheck(peer, name) => Attempt(peer, name)
    case Reject(worker) => Failed(w.claims[worker].value.peer, w.claims[worker].value.name)
    case Accept(worker) => Succeeded(w.claims[worker].value.peer, w.claims[worker].value.name)
    case Welcome(peer, name) => Succeeded(peer, name)
    case Unrelated(event) => event
  }

  predicate About(event: Event, account: Key) {
    !event.Connect? && !event.Create? && AccountKey(event.name) == account
  }

  /**
   * The failures counted after a call. The record is reset by a reported success, by an
   * attempt that finds its cooldown over, and by losing its slot to another account.
   */
  function Noted(before: Policy, event: Event, now: nat, after: Policy, noted: nat, account: Key): nat {
    if About(event, account) && event.Failed? then noted + 1
    else if About(event, account) && event.Succeeded? then 0
    else if About(event, account) && event.Attempt? && Cooled(RecordFor(before.accounts, account, CLEAR), now) then 0
    else if !Resident(after.accounts, account) then 0
    else noted
  }

  predicate Cooled(b: Backoff, now: nat) {
    b.blockedUntil != 0 && b.blockedUntil <= now
  }

  function Next(w: World, step: Step, now: nat, account: Key): World
    requires w.policy.Valid() && Possible(w, step)
  {
    var event := Call(w, step);
    var a := Apply(w.policy, Timed(event, now));
    World(
      a.policy,
      match step
      case Ask(worker, peer, name) => if a.allowed then w.claims[worker := Some(Claim(peer, name))] else w.claims
      case Reject(worker) => w.claims[worker := None]
      case Accept(worker) => w.claims[worker := None]
      case Recheck(_, _) => w.claims
      case Welcome(_, _) => w.claims
      case Unrelated(_) => w.claims,
      Noted(w.policy, event, now, a.policy, w.noted, account))
  }

  /** Attempts under way against the account. */
  function Pending(claims: seq<Option<Claim>>, account: Key): (n: nat)
    ensures n <= |claims|
  {
    if claims == [] then 0
    else Pending(claims[1..], account) + Against(claims[0], account)
  }

  function Against(c: Option<Claim>, account: Key): nat {
    if c.Some? && AccountKey(c.value.name) == account then 1 else 0
  }

  lemma {:induction false} PendingUpdate(claims: seq<Option<Claim>>, i: nat, c: Option<Claim>, account: Key)
    requires i < |claims|
    ensures Pending(claims[i := c], account) == Pending(claims, account) - Against(claims[i], account) + Against(c, account)
  {
    if i == 0 {
      assert claims[0 := c][1..] == claims[1..];
    } else {
      assert claims[i := c][1..] == claims[1..][i - 1 := c];
      PendingUpdate(claims[1..], i - 1, c, account);
    }
  }

  ghost predicate Invariant(w: World, account: Key) {
    var record := RecordFor(w.policy.accounts, account, CLEAR);
    && w.policy.Valid() && |w.claims| == WORKERS
    && Unique(w.policy.accounts) && !Resident(w.policy.accounts, [])
    && (forall i :: 0 <= i < WORKERS && w.claims[i].Some? ==> w.claims[i].value.name != [])
    && record.failures == w.noted
    && (record.blockedUntil == 0 <==> w.noted < ACCOUNT_FAILURE_LIMIT)
    && (w.noted >= ACCOUNT_FAILURE_LIMIT ==> w.noted + Pending(w.claims, account) <= WORKERS + 2)
  }

  // ----- One call and the account table -----

  /** What the account's own record becomes. */
  function Updated(b: Backoff, event: Event, now: nat): Backoff {
    match event
    case Attempt(_, _) => Thaw(b, now)
    case Failed(_, _) => CountFailure(b, AccountDelay, now)
    case Succeeded(_, _) => CLEAR
    case _ => b
  }

  lemma {:induction false} CallEffect(p: Policy, event: Event, now: nat, account: Key)
    requires p.Valid() && Unique(p.accounts) && !Resident(p.accounts, []) && account != []
    requires event.Connect? || event.Create? || event.name != []
    ensures var p' := Apply(p, Timed(event, now)).policy;
            var b := RecordFor(p.accounts, account, CLEAR);
            var b' := RecordFor(p'.accounts, account, CLEAR);
            && Unique(p'.accounts) && !Resident(p'.accounts, [])
            && (if About(event, account) then b' == Updated(b, event, now) && Resident(p'.accounts, account)
                else b' == if Resident(p'.accounts, account) then b else CLEAR)
    ensures event.Attempt? && About(event, account) && Apply(p, Timed(event, now)).allowed ==>
              Thaw(RecordFor(p.accounts, account, CLEAR), now).blockedUntil <= now
  {
    if event.Connect? || event.Create? {
      hide Choose;
      hide Admit;
      hide Visit;
      Absent(p.accounts, account, CLEAR);
    } else {
      var key := AccountKey(event.name);
      var left := Updated(AccountRecord(p, event.name), event, now);
      assert Apply(p, Timed(event, now)).policy.accounts == Visit(p.accounts, key, now, left);
      hide Apply;
      if key == account {
        VisitSelf(p.accounts, account, now, left, CLEAR);
      } else {
        VisitOther(p.accounts, key, now, left, account, CLEAR);
      }
    }
  }

  // ----- Every interleaving -----

  /** The record and the counter agree after a call. */
  lemma {:induction false} CallKeepsCount(w: World, step: Step, now: nat, account: Key)
    requires Invariant(w, account) && Possible(w, step) && account != []
    ensures var w' := Next(w, step, now, account);
            var b' := RecordFor(w'.policy.accounts, account, CLEAR);
            && w'.policy.Valid() && Unique(w'.policy.accounts) && !Resident(w'.policy.accounts, [])
            && b'.failures == w'.noted && (b'.blockedUntil == 0 <==> w'.noted < ACCOUNT_FAILURE_LIMIT)
  {
    CallEffect(w.policy, Call(w, step), now, account);
    Absent(w.policy.accounts, account, CLEAR);
    hide RecordFor;
    hide Resident;
    hide Apply;
    hide Unique;
  }

  /** The claims after a step: one more only while unlocked, one fewer when a failure is noted. */
  lemma {:induction false} StepChangesPending(w: World, step: Step, now: nat, account: Key)
    requires Invariant(w, account) && Possible(w, step) && account != []
    ensures var w' := Next(w, step, now, account);
            && |w'.claims| == WORKERS
            && (forall i :: 0 <= i < WORKERS && w'.claims[i].Some? ==> w'.claims[i].value.name != [])
            && (Pending(w'.claims, account) > Pending(w.claims, account) ==> w'.noted < ACCOUNT_FAILURE_LIMIT)
            && (w'.noted > w.noted ==> w'.noted == w.noted + 1 && Pending(w'.claims, account) == Pending(w.claims, account) - 1)
  {
    hide Pending;
    if step.Ask? {
      PendingUpdate(w.claims, step.worker, Some(Claim(step.peer, step.name)), account);
      var w' := Next(w, step, now, account);
      if w'.claims != w.claims && AccountKey(step.name) == account {
        NoneAllowedWhileLocked(w, step.worker, step.peer, step.name, now, account);
      }
    } else if step.Reject? || step.Accept? {
      PendingUpdate(w.claims, step.worker, None, account);
    }
    hide RecordFor;
    hide Resident;
    hide Apply;
    hide Unique;
    hide AccountKey;
    hide CountFailure;
  }

  lemma {:induction false} StepKeepsInvariant(w: World, step: Step, now: nat, account: Key)
    requires Invariant(w, account) && Possible(w, step) && account != []
    ensures Invariant(Next(w, step, now, account), account)
  {
    CallKeepsCount(w, step, now, account);
    StepChangesPending(w, step, now, account);
    hide Next;
    hide RecordFor;
    hide Resident;
    hide Unique;
    hide Pending;
  }

  datatype Move = Move(step: Step, now: nat)

  predicate IsRun(w: World, moves: seq<Move>, account: Key)
    requires w.policy.Valid()
    decreases moves
  {
    moves == [] || (Possible(w, moves[0].step) && IsRun(Next(w, moves[0].step, moves[0].now, account), moves[1..], account))
  }

  function After(w: World, moves: seq<Move>, account: Key): World
    requires w.policy.Valid() && IsRun(w, moves, account)
    decreases moves
  {
    if moves == [] then w else After(Next(w, moves[0].step, moves[0].now, account), moves[1..], account)
  }

  const START := World(EMPTY_POLICY, seq(WORKERS, _ => None), 0)

  /**
   * Over every interleaving of at most 64 workers, whatever the clock readings they pass:
   * at most 66 failures are noted for an account between two resets of its record.
   */
  lemma {:induction false} AtMostSixtySixFailures(moves: seq<Move>, account: Key)
    requires account != [] && IsRun(START, moves, account)
    ensures After(START, moves, account).noted <= 66
  {
    StartInvariant(account);
    InvariantAlongRun(START, moves, account);
  }

  lemma {:induction false} StartInvariant(account: Key)
    ensures Invariant(START, account)
  {
    var t := EMPTY_POLICY.accounts;
    assert forall i :: 0 <= i < |t| ==> t[i].Empty?;
    assert FirstHolding(t, account) == |t|;
  }

  lemma {:induction false} InvariantAlongRun(w: World, moves: seq<Move>, account: Key)
    requires account != [] && Invariant(w, account) && IsRun(w, moves, account)
    ensures Invariant(After(w, moves, account), account)
    decreases moves
  {
    if moves != [] {
      StepKeepsInvariant(w, moves[0].step, moves[0].now, account);
      hide Next;
      InvariantAlongRun(Next(w, moves[0].step, moves[0].now, account), moves[1..], account);
    }
  }

  /** No attempt is allowed while the account is locked: an allowed one finds fewer than three failures. */
  lemma {:induction false} NoneAllowedWhileLocked(w: World, worker: nat, peer: seq<byte>, name: seq<byte>, now: nat, account: Key)
    requires Invariant(w, account) && Possible(w, Ask(worker, peer, name)) && AccountKey(name) == account
    requires Next(w, Ask(worker, peer, name), now, account).claims != w.claims
    ensures Next(w, Ask(worker, peer, name), now, account).noted < ACCOUNT_FAILURE_LIMIT
    ensures var b := RecordFor(w.policy.accounts, account, CLEAR);
            b.failures >= ACCOUNT_FAILURE_LIMIT ==> b.blockedUntil <= now
  {
    var step := Ask(worker, peer, name);
    CallEffect(w.policy, Call(w, step), now, account);
    CallKeepsCount(w, step, now, account);
    hide RecordFor;
    hide Resident;
    hide Apply;
    hide Unique;
  }

  // ----- One worker at a time -----

  /**
   * What happens when workers take turns: a guess is asked for, verified and reported before
   * anything else, and any other call of the policy may come in between.
   */
  datatype Deed = Guess(peer: seq<byte>, name: seq<byte>, correct: bool) | Single(event: Event)

  datatype Turn = Turn(deed: Deed, now: nat)

  /** `failures` are the times of the failures noted since the account's last success or eviction. */
  datatype Tally = Tally(policy: Policy, failures: seq<nat>)

  /** Reports of failures come from guesses; names are never empty. */
  predicate Allowed(deed: Deed) {
    match deed
    case Guess(_, name, _) => name != []
    case Single(event) => event.Connect? || event.Create? || (!event.Failed? && event.name != [])
  }

  function Report(deed: Deed): Event
    requires deed.Guess?
  {
    if deed.correct then Succeeded(deed.peer, deed.name) else Failed(deed.peer, deed.name)
  }

  /** One call, and the failures since the last reset after it. */
  function Called(s: Tally, event: Event, now: nat, account: Key): (r: Tally)
    requires s.policy.Valid()
    ensures r.policy.Valid()
  {
    var p := Apply(s.policy, Timed(event, now)).policy;
    Tally(
      p,
      if !Resident(p.accounts, account) || (About(event, account) && event.Succeeded?) then []
      else if About(event, account) && event.Failed? then s.failures + [now]
      else s.failures)
  }

  function Played(s: Tally, t: Turn, account: Key): (r: Tally)
    requires s.policy.Valid()
    ensures r.policy.Valid()
  {
    match t.deed
    case Single(event) => Called(s, event, t.now, account)
    case Guess(peer, name, _) =>
      var asked := Called(s, Attempt(peer, name), t.now, account);
      if Apply(s.policy, Timed(Attempt(peer, name), t.now)).allowed then Called(asked, Report(t.deed), t.now, account) else asked
  }

  /** The record `b` holds the current streak of at most three failures; a full streak locks. */
  ghost predicate Streak(f: seq<nat>, b: Backoff, lock: nat, now: nat) {
    var start := |f| - b.failures;
    && Sorted(f) && Spaced(f, 3, lock) && (forall i :: 0 <= i < |f| ==> f[i] <= now)
    && b.failures <= 3 && start >= 0
    && b.blockedUntil == (if b.failures == 3 then f[|f| - 1] + lock else 0)
    && (start > 0 ==> f[start - 1] + lock <= if b.failures == 0 then now else f[start])
  }

  ghost predicate Consistent(s: Tally, account: Key, now: nat) {
    && s.policy.Valid() && Unique(s.policy.accounts) && !Resident(s.policy.accounts, [])
    && Streak(s.failures, RecordFor(s.policy.accounts, account, CLEAR), ACCOUNT_LOCK, now)
  }

  lemma {:induction false} StreakWaits(f: seq<nat>, b: Backoff, lock: nat, before: nat, now: nat)
    requires Streak(f, b, lock, before) && before <= now && lock > 0
    ensures Streak(f, b, lock, now) && Streak(f, Thaw(b, now), lock, now)
  {
  }

  lemma {:induction false} StreakGrows(f: seq<nat>, b: Backoff, delayFor: nat -> nat, lock: nat, now: nat)
    requires Streak(f, b, lock, now) && Thaw(b, now) == b && b.blockedUntil <= now && lock > 0
    requires delayFor(1) == delayFor(2) == 0 && delayFor(3) == lock
    ensures Streak(f + [now], CountFailure(b, delayFor, now), lock, now)
  {
    FourthFailureWaits(f, lock, now, b.failures);
    hide Spaced;
    hide Sorted;
  }

  /** Every call goes on with the streak or ends it, provided failures are only reported of an unlocked account. */
  lemma {:induction false} CallKeepsStreak(s: Tally, event: Event, now: nat, account: Key, before: nat)
    requires Consistent(s, account, before) && before <= now && account != []
    requires event.Connect? || event.Create? || event.name != []
    requires About(event, account) && event.Failed? ==>
               var b := RecordFor(s.policy.accounts, account, CLEAR); Thaw(b, now) == b && b.blockedUntil <= now
    ensures Consistent(Called(s, event, now, account), account, now)
  {
    CallEffect(s.policy, event, now, account);
    var b := RecordFor(s.policy.accounts, account, CLEAR);
    var p := Apply(s.policy, Timed(event, now)).policy;
    Absent(p.accounts, account, CLEAR);
    StreakWaits(s.failures, b, ACCOUNT_LOCK, before, now);
    if About(event, account) && event.Failed? {
      StreakGrows(s.failures, b, AccountDelay, ACCOUNT_LOCK, now);
    }
    assert Streak([], CLEAR, ACCOUNT_LOCK, now);
    hide Streak;
    hide RecordFor;
    hide Resident;
    hide Apply;
    hide Unique;
    hide CountFailure;
    hide Thaw;
    hide AccountKey;
  }

  /** An allowed attempt leaves the account's record thawed and unlocked. */
  lemma {:induction false} AllowedIsUnlocked(s: Tally, peer: seq<byte>, name: seq<byte>, now: nat, account: Key)
    requires s.policy.Valid() && Unique(s.policy.accounts) && !Resident(s.policy.accounts, [])
    requires account != [] && name != [] && AccountKey(name) == account
    requires Apply(s.policy, Timed(Attempt(peer, name), now)).allowed
    ensures var b := RecordFor(Called(s, Attempt(peer, name), now, account).policy.accounts, account, CLEAR);
            Thaw(b, now) == b && b.blockedUntil <= now
  {
    CallEffect(s.policy, Attempt(peer, name), now, account);
    hide RecordFor;
    hide Resident;
    hide Apply;
    hide Unique;
  }

  lemma {:induction false} TurnKeepsStreak(s: Tally, t: Turn, account: Key, before: nat)
    requires Consistent(s, account, before) && before <= t.now && account != [] && Allowed(t.deed)
    ensures Consistent(Played(s, t, account), account, t.now)
  {
    ConsistentParts(s, account, before);
    hide Consistent;
    hide Called;
    hide Apply;
    match t.deed
    case Single(event) => CallKeepsStreak(s, event, t.now, account, before);
    case Guess(peer, name, _) =>
      var ask := Attempt(peer, name);
      CallKeepsStreak(s, ask, t.now, account, before);
      if Apply(s.policy, Timed(ask, t.now)).allowed {
        if AccountKey(name) == account {
          AllowedIsUnlocked(s, peer, name, t.now, account);
        }
        CallKeepsStreak(Called(s, ask, t.now, account), Report(t.deed), t.now, account, t.now);
      }
  }

  lemma {:induction false} ConsistentParts(s: Tally, account: Key, now: nat)
    requires Consistent(s, account, now)
    ensures s.policy.Valid() && Unique(s.policy.accounts) && !Resident(s.policy.accounts, [])
  {
  }

  /** Appending to a streak of at most two keeps every fourth failure a lock period away. */
  lemma {:induction false} FourthFailureWaits(f: seq<nat>, lock: nat, now: nat, m: nat)
    requires Sorted(f) && Spaced(f, 3, lock) && m <= 2 && m <= |f|
    requires forall i :: 0 <= i < |f| ==> f[i] <= now
    requires |f| > m ==> f[|f| - m - 1] + lock <= if m == 0 then now else f[|f| - m]
    ensures Sorted(f + [now]) && Spaced(f + [now], 3, lock)
  {
    if |f| >= 3 {
      assert f[|f| - 3] <= f[|f| - m - 1];
      assert f[|f| - 3] + lock <= now;
    }
  }

  predicate InTime(turns: seq<Turn>) {
    && (forall i, j :: 0 <= i < j < |turns| ==> turns[i].now <= turns[j].now)
    && (forall i :: 0 <= i < |turns| ==> Allowed(turns[i].deed))
  }

  function Tallied(turns: seq<Turn>, account: Key): (s: Tally)
    ensures s.policy.Valid()
  {
    if turns == [] then Tally(EMPTY_POLICY, [])
    else Played(Tallied(turns[..|turns| - 1], account), turns[|turns| - 1], account)
  }

  /**
   * Guesses made one at a time under non-decreasing time, among any other calls: any four
   * consecutive failures noted since the account's last success or eviction span at least
   * 300 seconds, so any shorter interval of that time holds at most three.
   */
  lemma {:induction false} AtMostThreeGuessesPerLock(turns: seq<Turn>, account: Key, now: nat)
    requires account != [] && InTime(turns)
    ensures var f := Tallied(turns, account).failures;
            Sorted(f) && Spaced(f, ACCOUNT_FAILURE_LIMIT, ACCOUNT_LOCK) && |Live(f, now, ACCOUNT_LOCK)| <= 3
  {
    var last := if turns == [] then 0 else turns[|turns| - 1].now;
    StreakAlongRun(turns, account, last);
    hide Live;
    SpacedBoundsEveryWindow(Tallied(turns, account).failures, 3, ACCOUNT_LOCK, now);
  }

  lemma {:induction false} StreakAlongRun(turns: seq<Turn>, account: Key, now: nat)
    requires account != [] && InTime(turns)
    requires forall i :: 0 <= i < |turns| ==> turns[i].now <= now
    ensures Consistent(Tallied(turns, account), account, now)
  {
    if turns == [] {
      StartConsistent(account, now);
    } else {
      hide Streak;
      hide RecordFor;
      hide Resident;
      hide Unique;
      hide Apply;
      hide Played;
      var front := turns[..|turns| - 1];
      var t := turns[|turns| - 1];
      var s := Tallied(turns, account);
      assert s == Played(Tallied(front, account), t, account);
      StreakAlongRun(front, account, t.now);
      hide Tallied;
      TurnKeepsStreak(Tallied(front, account), t, account, t.now);
      StreakWaits(s.failures, RecordFor(s.policy.accounts, account, CLEAR), ACCOUNT_LOCK, t.now, now);
    }
  }

  lemma {:induction false} StartConsistent(account: Key, now: nat)
    ensures Consistent(Tally(EMPTY_POLICY, []), account, now)
  {
    StartInvariant(account);
  }
}
