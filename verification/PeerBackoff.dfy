/**
 * Password guessing from one peer, whatever accounts it tries: the backoff that grows with
 * its failures, over turns and over every interleaving of the workers.
 */
module PeerBackoff {
  import opened Bytes
  import opened LruTable
  import opened SlidingWindow
  import opened AbusePolicy
  import opened Lockout

  function PeerAuth(p: Policy, key: Key): Backoff {
    RecordFor(p.peers, key, BLANK_PEER).auth
  }

  // ----- One call and the peer table -----

  /** What the peer's own backoff becomes. */
  function Moved(b: Backoff, event: Event, now: nat): Backoff {
    match event
    case Attempt(_, _) => Thaw(b, now)
    case Failed(_, _) => CountFailure(b, PeerDelay, now)
    case Succeeded(_, _) => CLEAR
    case _ => b
  }

  lemma {:induction false} LookupMoves(p: Policy, event: Event, now: nat)
    requires p.Valid()
    ensures PeerLookup(p, Timed(event, now)).record.auth == Moved(PeerRecord(p, event.peer).auth, event, now)
  {
    hide Admit;
    hide RecordFor;
    hide Choose;
    hide CountFailure;
    hide Thaw;
  }

  lemma {:induction false} PeerCallEffect(p: Policy, event: Event, now: nat, key: Key)
    requires p.Valid() && Unique(p.peers) && !Resident(p.peers, []) && key != []
    ensures var p' := Apply(p, Timed(event, now)).policy;
            var b, b' := PeerAuth(p, key), PeerAuth(p', key);
            && Unique(p'.peers) && !Resident(p'.peers, [])
            && (if PeerKey(event.peer) == key then b' == Moved(b, event, now) && Resident(p'.peers, key)
                else b' == if Resident(p'.peers, key) then b else CLEAR)
  {
    var e := Timed(event, now);
    var l := PeerLookup(p, e);
    ApplyVisits(p, e);
    LookupMoves(p, event, now);
    hide Apply;
    hide Moved;
    if l.key == key {
      VisitSelf(p.peers, key, now, l.record, BLANK_PEER);
    } else {
      VisitOther(p.peers, l.key, now, l.record, key, BLANK_PEER);
    }
    hide Visit;
    hide RecordFor;
    hide Resident;
    hide Unique;
  }

  /** A login is allowed exactly when neither the peer nor the account is held back. */
  lemma {:induction false} AllowedIffBothFree(p: Policy, peer: seq<byte>, name: seq<byte>, now: nat)
    requires p.Valid()
    ensures var a := AllowAuth(p, peer, name, now);
            var b := PeerAuth(p, PeerKey(peer));
            && (a.allowed <==> b.blockedUntil <= now && AccountRecord(p, name).blockedUntil <= now)
            && (b.blockedUntil > now ==> a.retryAfter >= b.blockedUntil - now)
  {
    hide RecordFor;
    hide Visit;
  }

  // ----- One worker at a time -----

  /** `failures` are the times of the failures noted since the peer's last success or eviction. */
  datatype Tries = Tries(policy: Policy, failures: seq<nat>)

  const PEER_LOCK := 1_000

  function Told(s: Tries, event: Event, now: nat, key: Key): (r: Tries)
    requires s.policy.Valid()
    ensures r.policy.Valid()
  {
    var p := Apply(s.policy, Timed(event, now)).policy;
    var mine := PeerKey(event.peer) == key;
    Tries(
      p,
      if !Resident(p.peers, key) || (mine && event.Succeeded?) then []
      else if mine && event.Failed? then s.failures + [now]
      else s.failures)
  }

  function Taken(s: Tries, t: Turn, key: Key): (r: Tries)
    requires s.policy.Valid()
    ensures r.policy.Valid()
  {
    match t.deed
    case Single(event) => Told(s, event, t.now, key)
    case Guess(peer, name, _) =>
      var asked := Told(s, Attempt(peer, name), t.now, key);
      if Apply(s.policy, Timed(Attempt(peer, name), t.now)).allowed then Told(asked, Report(t.deed), t.now, key) else asked
  }

  function TakenAll(turns: seq<Turn>, key: Key): (s: Tries)
    ensures s.policy.Valid()
  {
    if turns == [] then Tries(EMPTY_POLICY, []) else Taken(TakenAll(turns[..|turns| - 1], key), turns[|turns| - 1], key)
  }

  ghost predicate InStep(s: Tries, key: Key, now: nat) {
    && s.policy.Valid() && Unique(s.policy.peers) && !Resident(s.policy.peers, [])
    && Streak(s.failures, PeerAuth(s.policy, key), PEER_LOCK, now)
  }

  lemma {:induction false} TellingKeepsStep(s: Tries, event: Event, now: nat, key: Key, before: nat)
    requires InStep(s, key, before) && before <= now && key != []
    requires PeerKey(event.peer) == key && event.Failed? ==>
               var b := PeerAuth(s.policy, key); Thaw(b, now) == b && b.blockedUntil <= now
    ensures InStep(Told(s, event, now, key), key, now)
  {
    PeerCallEffect(s.policy, event, now, key);
    var b := PeerAuth(s.policy, key);
    var p := Apply(s.policy, Timed(event, now)).policy;
    StreakWaits(s.failures, b, PEER_LOCK, before, now);
    if PeerKey(event.peer) == key && event.Failed? {
      FirstDelays();
      StreakGrows(s.failures, b, PeerDelay, PEER_LOCK, now);
    }
    assert Streak([], CLEAR, PEER_LOCK, now);
    hide Streak;
    hide PeerAuth;
    hide Resident;
    hide Apply;
    hide Unique;
    hide CountFailure;
    hide Thaw;
    hide PeerKey;
  }

  /** 0, 0, 1, 2, 4, 8, 16 and 32 seconds, then a minute. */
  function Seconds(failures: nat): nat {
    match failures
    case 0 => 0
    case 1 => 0
    case 2 => 0
    case 3 => 1
    case 4 => 2
    case 5 => 4
    case 6 => 8
    case 7 => 16
    case 8 => 32
    case _ => 60
  }

  lemma {:induction false} DelayIsSeconds(failures: nat)
    ensures PeerDelay(failures) == 1000 * Seconds(failures)
  {
    assert Doubled(1000, 0) == 1000;
    assert Doubled(1000, 1) == 2000;
    assert Doubled(1000, 2) == 4000;
    assert Doubled(1000, 3) == 8000;
    assert Doubled(1000, 4) == 16000;
    assert Doubled(1000, 5) == 32000;
    assert Doubled(1000, 6) == 64000;
  }

  lemma {:induction false} FirstDelays()
    ensures PeerDelay(1) == PeerDelay(2) == 0 && PeerDelay(3) == PEER_LOCK
  {
    DelayIsSeconds(1);
    DelayIsSeconds(2);
    DelayIsSeconds(3);
    hide PeerDelay;
  }

  /** An allowed attempt leaves the peer's record thawed and free. */
  lemma {:induction false} AllowedIsFree(s: Tries, peer: seq<byte>, name: seq<byte>, now: nat, key: Key)
    requires s.policy.Valid() && Unique(s.policy.peers) && !Resident(s.policy.peers, [])
    requires key != [] && PeerKey(peer) == key && Apply(s.policy, Timed(Attempt(peer, name), now)).allowed
    ensures var b := PeerAuth(Told(s, Attempt(peer, name), now, key).policy, key);
            Thaw(b, now) == b && b.blockedUntil <= now
  {
    AllowedIffBothFree(s.policy, peer, name, now);
    PeerCallEffect(s.policy, Attempt(peer, name), now, key);
    hide AllowAuth;
    hide PeerAuth;
    hide AccountRecord;
    hide Resident;
    hide Unique;
    hide PeerKey;
  }

  lemma {:induction false} TurnKeepsStep(s: Tries, t: Turn, key: Key, before: nat)
    requires InStep(s, key, before) && before <= t.now && key != [] && (t.deed.Single? ==> !t.deed.event.Failed?)
    ensures InStep(Taken(s, t, key), key, t.now)
  {
    StepParts(s, key, before);
    hide InStep;
    hide Told;
    hide Apply;
    hide PeerKey;
    match t.deed
    case Single(event) => TellingKeepsStep(s, event, t.now, key, before);
    case Guess(peer, name, _) =>
      var ask := Attempt(peer, name);
      TellingKeepsStep(s, ask, t.now, key, before);
      if Apply(s.policy, Timed(ask, t.now)).allowed {
        if PeerKey(peer) == key {
          AllowedIsFree(s, peer, name, t.now, key);
        }
        TellingKeepsStep(Told(s, ask, t.now, key), Report(t.deed), t.now, key, t.now);
      }
  }

  lemma {:induction false} StepParts(s: Tries, key: Key, now: nat)
    requires InStep(s, key, now)
    ensures s.policy.Valid() && Unique(s.policy.peers) && !Resident(s.policy.peers, [])
  {
  }

  /** Turns in time; failures are reported by guesses. Names may be anything. */
  predicate Timely(turns: seq<Turn>) {
    && (forall i, j :: 0 <= i < j < |turns| ==> turns[i].now <= turns[j].now)
    && (forall i :: 0 <= i < |turns| && turns[i].deed.Single? ==> !turns[i].deed.event.Failed?)
  }

  lemma {:induction false} StepAlongRun(turns: seq<Turn>, key: Key, now: nat)
    requires key != [] && Timely(turns) && forall i :: 0 <= i < |turns| ==> turns[i].now <= now
    ensures InStep(TakenAll(turns, key), key, now)
  {
    if turns == [] {
      StartInStep(key, now);
    } else {
      hide Streak;
      hide PeerAuth;
      hide Resident;
      hide Unique;
      hide Apply;
      hide Taken;
      var front, t := turns[..|turns| - 1], turns[|turns| - 1];
      var s := TakenAll(turns, key);
      assert s == Taken(TakenAll(front, key), t, key);
      StepAlongRun(front, key, t.now);
      hide TakenAll;
      TurnKeepsStep(TakenAll(front, key), t, key, t.now);
      StreakWaits(s.failures, PeerAuth(s.policy, key), PEER_LOCK, t.now, now);
    }
  }

  lemma {:induction false} StartInStep(key: Key, now: nat)
    ensures InStep(Tries(EMPTY_POLICY, []), key, now)
  {
    EmptyPeers(key);
  }

  lemma {:induction false} EmptyPeers(key: Key)
    ensures Unique(EMPTY_POLICY.peers) && !Resident(EMPTY_POLICY.peers, []) && PeerAuth(EMPTY_POLICY, key) == CLEAR
  {
    var t := EMPTY_POLICY.peers;
    assert forall i :: 0 <= i < |t| ==> t[i].Empty?;
    assert FirstHolding(t, key) == |t|;
  }

  /**
   * Guesses made one at a time under non-decreasing time, against any accounts and among any
   * other calls: any four consecutive failures of a peer since its last success or eviction
   * span at least a second, so any shorter interval of that time holds at most three.
   */
  lemma {:induction false} AtMostThreeGuessesPerSecond(turns: seq<Turn>, peer: seq<byte>, now: nat)
    requires Timely(turns)
    ensures var f := TakenAll(turns, PeerKey(peer)).failures;
            Sorted(f) && Spaced(f, 3, 1_000) && |Live(f, now, 1_000)| <= 3
  {
    var last := if turns == [] then 0 else turns[|turns| - 1].now;
    StepAlongRun(turns, PeerKey(peer), last);
    hide Live;
    hide TakenAll;
    SpacedBoundsEveryWindow(TakenAll(turns, PeerKey(peer)).failures, 3, 1_000, now);
  }

  // ----- Every interleaving of the workers -----

  /** `noted` counts the peer's failures since its record was last reset, `last` is the time of the latest. */
  datatype Watch = Watch(policy: Policy, claims: seq<Option<Claim>>, noted: nat, last: nat)

  function Plain(w: Watch): World {
    World(w.policy, w.claims, 0)
  }

  /** The record is reset by a reported success, an attempt that finds its delay over, and losing its slot. */
  function Advance(w: Watch, step: Step, now: nat, key: Key): (r: Watch)
    requires w.policy.Valid() && Possible(Plain(w), step)
    ensures r.policy.Valid()
  {
    var event := Call(Plain(w), step);
    var p := Apply(w.policy, Timed(event, now)).policy;
    var mine := PeerKey(event.peer) == key;
    var reset := || !Resident(p.peers, key)
                 || (mine && event.Succeeded?)
                 || (mine && event.Attempt? && Cooled(PeerAuth(w.policy, key), now));
    Watch(
      p,
      Next(Plain(w), step, now, []).claims,
      if reset then 0 else if mine && event.Failed? then w.noted + 1 else w.noted,
      if mine && event.Failed? then now else w.last)
  }

  /** The record agrees with the count, which it stops following at a million. */
  ghost predicate Agrees(w: Watch, key: Key) {
    var b := PeerAuth(w.policy, key);
    && w.policy.Valid() && Unique(w.policy.peers) && !Resident(w.policy.peers, [])
    && b.failures == (if w.noted < FAILURE_CEILING then w.noted else FAILURE_CEILING)
    && b.blockedUntil == (if w.noted < 3 then 0 else w.last + 1000 * Seconds(w.noted))
  }

  lemma {:induction false} CountGoesOn(b: Backoff, noted: nat, last: nat, now: nat)
    requires b.failures == (if noted < FAILURE_CEILING then noted else FAILURE_CEILING)
    requires b.blockedUntil == if noted < 3 then 0 else last + 1000 * Seconds(noted)
    ensures var r := CountFailure(b, PeerDelay, now);
            && r.failures == (if noted + 1 < FAILURE_CEILING then noted + 1 else FAILURE_CEILING)
            && r.blockedUntil == if noted + 1 < 3 then 0 else now + 1000 * Seconds(noted + 1)
  {
    var failures := if b.failures < FAILURE_CEILING then b.failures + 1 else b.failures;
    DelayIsSeconds(failures);
    hide PeerDelay;
    assert Seconds(failures) == Seconds(noted + 1);
    assert noted + 1 >= 3 ==> Seconds(noted + 1) > 0;
  }

  lemma {:induction false} AdvanceKeepsAgreement(w: Watch, step: Step, now: nat, key: Key)
    requires Agrees(w, key) && Possible(Plain(w), step) && key != []
    ensures Agrees(Advance(w, step, now, key), key)
  {
    hide PeerAuth;
    hide Resident;
    hide Apply;
    hide Unique;
    hide CountFailure;
    hide Next;
    hide PeerKey;
    hide Seconds;
    hide Possible;
    hide Call;
    var event := Call(Plain(w), step);
    PeerCallEffect(w.policy, event, now, key);
    if PeerKey(event.peer) == key && event.Failed? {
      CountGoesOn(PeerAuth(w.policy, key), w.noted, w.last, now);
    }
  }

  predicate IsWatched(w: Watch, moves: seq<Move>, key: Key)
    requires w.policy.Valid()
    decreases moves
  {
    moves == [] || (Possible(Plain(w), moves[0].step) && IsWatched(Advance(w, moves[0].step, moves[0].now, key), moves[1..], key))
  }

  function Watched(w: Watch, moves: seq<Move>, key: Key): (r: Watch)
    requires w.policy.Valid() && IsWatched(w, moves, key)
    ensures r.policy.Valid()
    decreases moves
  {
    if moves == [] then w else Watched(Advance(w, moves[0].step, moves[0].now, key), moves[1..], key)
  }

  lemma {:induction false} AgreementAlongRun(w: Watch, moves: seq<Move>, key: Key)
    requires key != [] && Agrees(w, key) && IsWatched(w, moves, key)
    ensures Agrees(Watched(w, moves, key), key)
    decreases moves
  {
    if moves != [] {
      AdvanceKeepsAgreement(w, moves[0].step, moves[0].now, key);
      hide Advance;
      hide Agrees;
      AgreementAlongRun(Advance(w, moves[0].step, moves[0].now, key), moves[1..], key);
    }
  }

  const UNWATCHED := Watch(EMPTY_POLICY, seq(WORKERS, _ => None), 0, 0)

  /**
   * In every interleaving of the workers, whatever the clock readings: after a peer's n-th
   * failure since its record was last reset, n at least three, no attempt from it is allowed
   * until 1, 2, 4, 8, 16, 32 and then 60 seconds have passed since that failure, and the
   * reported wait is no shorter. The peer is held back by nothing else.
   */
  lemma {:induction false} PeerWaitsItsTurn(moves: seq<Move>, peer: seq<byte>, name: seq<byte>, now: nat)
    requires IsWatched(UNWATCHED, moves, PeerKey(peer))
    ensures var w := Watched(UNWATCHED, moves, PeerKey(peer));
            var a := AllowAuth(w.policy, peer, name, now);
            var until := w.last + 1000 * Seconds(w.noted);
            && (a.allowed <==> (w.noted < 3 || until <= now) && AccountRecord(w.policy, name).blockedUntil <= now)
            && (w.noted >= 3 && now < until ==> a.retryAfter >= until - now)
  {
    var key := PeerKey(peer);
    EmptyPeers(key);
    assert Agrees(UNWATCHED, key);
    AgreementAlongRun(UNWATCHED, moves, key);
    var w := Watched(UNWATCHED, moves, key);
    AllowedIffBothFree(w.policy, peer, name, now);
    hide Watched;
    hide IsWatched;
    hide AllowAuth;
    hide PeerAuth;
    hide AccountRecord;
    hide Seconds;
    hide Resident;
    hide Unique;
    hide PeerKey;
  }
}
