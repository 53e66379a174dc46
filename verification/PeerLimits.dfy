/**
 * The limits of a single peer over every run of the abuse policy, and what the wait reported
 * for a refused connection is worth in the states that runs reach.
 */
module PeerLimits {
  import opened Bytes
  import opened LruTable
  import opened SlidingWindow
  import opened AbusePolicy

  // ----- A peer's own windows -----

  /** When the peer's own windows admitted a call, since its record was last made. */
  datatype Own = Own(connected: seq<nat>, created: seq<nat>)

  const NONE := Own([], [])

  function OwnConnection(record: Peer, now: nat): Verdict {
    Admit(record.connections, PEER_CONNECTION_LIMIT, CONNECTION_SPAN, now)
  }

  function OwnCreation(record: Peer, now: nat): Verdict {
    Admit(record.creations, PEER_CREATION_LIMIT, CREATION_SPAN, now)
  }

  /** What one call adds to the history of the peer that made it. */
  function Charge(p: Policy, e: Timed, before: Own): Own {
    var record := PeerRecord(p, e.event.peer);
    match e.event
    case Connect(_) => before.(connected := Record(before.connected, OwnConnection(record, e.time), e.time))
    case Create(_) => before.(created := Record(before.created, OwnCreation(record, e.time), e.time))
    case _ => before
  }

  function OwnHistory(events: seq<Timed>, key: Key): Own {
    if events == [] then NONE
    else
      var front, e := events[..|events| - 1], events[|events| - 1];
      var before := OwnHistory(front, key);
      if !Resident(Replay(events).policy.peers, key) then NONE
      else if PeerKey(e.event.peer) == key then Charge(Replay(front).policy, e, before)
      else before
  }

  /** A call is only allowed if the peer's own window admitted it. */
  lemma {:induction false} AllowedIsCharged(p: Policy, e: Timed, before: Own)
    requires p.Valid() && Apply(p, e).allowed
    ensures e.event.Connect? ==> Charge(p, e, before).connected == before.connected + [e.time]
    ensures e.event.Create? ==> Charge(p, e, before).created == before.created + [e.time]
  {
    hide Admit;
    hide RecordFor;
    hide Visit;
  }

  /** The record that a call leaves for its peer. */
  lemma {:induction false} CallUpdatesPeer(p: Policy, e: Timed)
    requires p.Valid()
    ensures var record := PeerRecord(p, e.event.peer);
            var left := PeerRecord(Apply(p, e).policy, e.event.peer);
            && left.connections == (if e.event.Connect? then OwnConnection(record, e.time).times else record.connections)
            && left.creations == (if e.event.Create? then OwnCreation(record, e.time).times else record.creations)
  {
    var key := PeerKey(e.event.peer);
    var record := PeerRecord(p, e.event.peer);
    match e.event
    case Connect(_) =>
      VisitThenFind(p.peers, key, e.time, record.(connections := OwnConnection(record, e.time).times), BLANK_PEER);
      hide Admit;
      hide RecordFor;
      hide Visit;
    case Create(_) =>
      VisitThenFind(p.peers, key, e.time, record.(creations := OwnCreation(record, e.time).times), BLANK_PEER);
      hide Admit;
      hide RecordFor;
      hide Visit;
    case _ =>
      AuthLeavesWindows(p, e);
      hide Apply;
      hide RecordFor;
  }

  lemma {:induction false} AuthLeavesWindows(p: Policy, e: Timed)
    requires p.Valid() && !e.event.Connect? && !e.event.Create?
    ensures var left := PeerRecord(Apply(p, e).policy, e.event.peer);
            left.connections == PeerRecord(p, e.event.peer).connections && left.creations == PeerRecord(p, e.event.peer).creations
  {
    var record := PeerRecord(p, e.event.peer);
    var auth := match e.event
                case Attempt(_, _) => Thaw(record.auth, e.time)
                case Failed(_, _) => CountFailure(record.auth, PeerDelay, e.time)
                case _ => CLEAR;
    VisitThenFind(p.peers, PeerKey(e.event.peer), e.time, record.(auth := auth), BLANK_PEER);
    hide RecordFor;
    hide Visit;
    hide CountFailure;
  }

  ghost predicate OwnOk(p: Policy, key: Key, own: Own, now: nat) {
    var record := RecordFor(p.peers, key, BLANK_PEER);
    && p.Valid() && Unique(p.peers) && !Resident(p.peers, [])
    && Accounts(record.connections, own.connected, PEER_CONNECTION_LIMIT, CONNECTION_SPAN, now)
    && Accounts(record.creations, own.created, PEER_CREATION_LIMIT, CREATION_SPAN, now)
  }

  lemma {:induction false} NothingAccounts(limit: nat, span: nat, now: nat)
    ensures Accounts([], [], limit, span, now)
  {
    assert Represents([], [], 0, span);
  }

  lemma {:induction false} CallKeepsOwn(p: Policy, e: Timed, key: Key, own: Own, before: nat)
    requires OwnOk(p, key, own, before) && before <= e.time && key != [] && (!Resident(p.peers, key) ==> own == NONE)
    ensures var p' := Apply(p, e).policy;
            OwnOk(p', key, if !Resident(p'.peers, key) then NONE else if PeerKey(e.event.peer) == key then Charge(p, e, own) else own, e.time)
  {
    var p' := Apply(p, e).policy;
    var probe := PeerKey(e.event.peer);
    var l := PeerLookup(p, e);
    ApplyVisits(p, e);
    hide Accounts;
    hide Admit;
    hide Visit;
    var record := RecordFor(p.peers, key, BLANK_PEER);
    AccountsLater(record.connections, own.connected, PEER_CONNECTION_LIMIT, CONNECTION_SPAN, before, e.time);
    AccountsLater(record.creations, own.created, PEER_CREATION_LIMIT, CREATION_SPAN, before, e.time);
    if probe == key {
      VisitSelf(p.peers, key, e.time, l.record, BLANK_PEER);
      CallUpdatesPeer(p, e);
      AdmitAccounts(record.connections, own.connected, PEER_CONNECTION_LIMIT, CONNECTION_SPAN, before, e.time);
      AdmitAccounts(record.creations, own.created, PEER_CREATION_LIMIT, CREATION_SPAN, before, e.time);
    } else {
      VisitOther(p.peers, probe, e.time, l.record, key, BLANK_PEER);
      NothingAccounts(PEER_CONNECTION_LIMIT, CONNECTION_SPAN, e.time);
      NothingAccounts(PEER_CREATION_LIMIT, CREATION_SPAN, e.time);
    }
    hide Apply;
    hide RecordFor;
    hide Resident;
    hide Unique;
    hide PeerKey;
  }

  lemma {:induction false} StartOwnOk(key: Key, now: nat)
    ensures OwnOk(EMPTY_POLICY, key, NONE, now)
  {
    var t := EMPTY_POLICY.peers;
    assert forall i :: 0 <= i < |t| ==> t[i].Empty?;
    assert FirstHolding(t, key) == |t|;
    NothingAccounts(PEER_CONNECTION_LIMIT, CONNECTION_SPAN, now);
    NothingAccounts(PEER_CREATION_LIMIT, CREATION_SPAN, now);
    hide Accounts;
  }

  lemma {:induction false} OwnAlongRun(events: seq<Timed>, key: Key, now: nat)
    requires InOrder(events) && key != [] && forall i :: 0 <= i < |events| ==> events[i].time <= now
    ensures OwnOk(Replay(events).policy, key, OwnHistory(events, key), now)
  {
    if events == [] {
      StartOwnOk(key, now);
    } else {
      var front, e := events[..|events| - 1], events[|events| - 1];
      OwnAlongRun(front, key, e.time);
      var p := Replay(front).policy;
      assert Replay(events).policy == Apply(p, e).policy;
      AbsentHasNone(front, key);
      CallKeepsOwn(p, e, key, OwnHistory(front, key), e.time);
      OwnWaits(Replay(events).policy, key, OwnHistory(events, key), e.time, now);
      hide OwnOk;
      hide Apply;
      hide Charge;
      hide Resident;
    }
  }

  lemma {:induction false} AbsentHasNone(events: seq<Timed>, key: Key)
    ensures !Resident(Replay(events).policy.peers, key) ==> OwnHistory(events, key) == NONE
  {
    hide Charge;
    hide Replay;
    hide Resident;
  }

  lemma {:induction false} OwnWaits(p: Policy, key: Key, own: Own, before: nat, now: nat)
    requires OwnOk(p, key, own, before) && before <= now
    ensures OwnOk(p, key, own, now)
  {
    var record := RecordFor(p.peers, key, BLANK_PEER);
    AccountsLater(record.connections, own.connected, PEER_CONNECTION_LIMIT, CONNECTION_SPAN, before, now);
    AccountsLater(record.creations, own.created, PEER_CREATION_LIMIT, CREATION_SPAN, before, now);
    hide Accounts;
    hide RecordFor;
    hide Resident;
    hide Unique;
  }

  /**
   * Over every run under non-decreasing time: since a peer's record was last made, its own
   * windows have admitted at most 5 connections in any 10 seconds and at most 10 account
   * creations in any 10 minutes, whatever other peers did.
   */
  lemma {:induction false} PeerLimitsHold(events: seq<Timed>, peer: seq<byte>, now: nat)
    requires InOrder(events)
    ensures var own := OwnHistory(events, PeerKey(peer));
            && Sorted(own.connected) && Spaced(own.connected, 5, 10_000) && |Live(own.connected, now, 10_000)| <= 5
            && Sorted(own.created) && Spaced(own.created, 10, 600_000) && |Live(own.created, now, 600_000)| <= 10
  {
    var end := if events == [] then 0 else events[|events| - 1].time;
    OwnAlongRun(events, PeerKey(peer), end);
    var own := OwnHistory(events, PeerKey(peer));
    hide OwnHistory;
    hide Live;
    SpacedBoundsEveryWindow(own.connected, 5, 10_000, now);
    SpacedBoundsEveryWindow(own.created, 10, 600_000, now);
  }

  lemma {:induction false} AdmitsUnderLimit(window: seq<nat>, history: seq<nat>, limit: nat, span: nat, now: nat)
    requires 0 < limit && 0 < span && Accounts(window, history, limit, span, now)
    ensures Admit(window, limit, span, now).allowed <==> |Live(history, now, span)| < limit
  {
    var at: nat :| at <= now && Represents(window, history, at, span);
    CallKeepsSpacing(window, history, at, limit, span, now);
    hide Live;
  }

  /** A call is allowed exactly when both windows admit it. */
  lemma {:induction false} AllowedIffBothAdmit(p: Policy, peer: seq<byte>, now: nat)
    requires p.Valid()
    ensures AllowConnection(p, peer, now).allowed <==>
              && Admit(PeerRecord(p, peer).connections, PEER_CONNECTION_LIMIT, CONNECTION_SPAN, now).allowed
              && Admit(p.connections, GLOBAL_CONNECTION_LIMIT, CONNECTION_SPAN, now).allowed
    ensures AllowCreation(p, peer, now).allowed <==>
              && Admit(PeerRecord(p, peer).creations, PEER_CREATION_LIMIT, CREATION_SPAN, now).allowed
              && Admit(p.creations, GLOBAL_CREATION_LIMIT, CREATION_SPAN, now).allowed
  {
    hide Admit;
    hide RecordFor;
    hide Visit;
  }

  /**
   * After every run under non-decreasing time: a connection is allowed if and only if fewer
   * than 5 of the peer's own and fewer than 30 of all admissions lie in the last 10 seconds,
   * a creation if and only if fewer than 10 and 50 lie in the last 10 minutes. The peer's own
   * are counted since its record was last made.
   */
  lemma {:induction false} AllowedIffUnderLimits(events: seq<Timed>, peer: seq<byte>, now: nat)
    requires InOrder(events) && forall i :: 0 <= i < |events| ==> events[i].time <= now
    ensures var h, own := Replay(events), OwnHistory(events, PeerKey(peer));
            && (AllowConnection(h.policy, peer, now).allowed <==>
                  |Live(own.connected, now, 10_000)| < 5 && |Live(h.connected, now, 10_000)| < 30)
            && (AllowCreation(h.policy, peer, now).allowed <==>
                  |Live(own.created, now, 600_000)| < 10 && |Live(h.created, now, 600_000)| < 50)
  {
    var h, own := Replay(events), OwnHistory(events, PeerKey(peer));
    ReplayAccounts(events, now);
    OwnAlongRun(events, PeerKey(peer), now);
    AllowedIffBothAdmit(h.policy, peer, now);
    var record := PeerRecord(h.policy, peer);
    hide Replay;
    hide OwnHistory;
    hide Accounts;
    hide Admit;
    hide Live;
    hide AllowConnection;
    hide AllowCreation;
    hide RecordFor;
    hide Resident;
    hide Unique;
    AdmitsUnderLimit(record.connections, own.connected, 5, 10_000, now);
    AdmitsUnderLimit(record.creations, own.created, 10, 600_000, now);
    AdmitsUnderLimit(h.policy.connections, h.connected, 30, 10_000, now);
    AdmitsUnderLimit(h.policy.creations, h.created, 50, 600_000, now);
  }

  // ----- The reported wait, in the states that runs reach -----

  lemma {:induction false} AccountedIsOrderly(window: seq<nat>, history: seq<nat>, limit: nat, span: nat, now: nat)
    requires Accounts(window, history, limit, span, now)
    ensures Orderly(window, limit, span, now)
  {
    var at: nat :| at <= now && Represents(window, history, at, span);
    SpacedBoundsEveryWindow(history, limit, span, at);
    LiveIsSuffix(history, at, span);
    hide Live;
  }

  /** Every run leaves the global window and every peer's own window in order. */
  lemma {:induction false} ReachedWindowsAreOrderly(events: seq<Timed>, peer: seq<byte>, now: nat)
    requires InOrder(events) && forall i :: 0 <= i < |events| ==> events[i].time <= now
    ensures var p := Replay(events).policy;
            && Orderly(p.connections, GLOBAL_CONNECTION_LIMIT, CONNECTION_SPAN, now)
            && Orderly(PeerRecord(p, peer).connections, PEER_CONNECTION_LIMIT, CONNECTION_SPAN, now)
            && Orderly(p.creations, GLOBAL_CREATION_LIMIT, CREATION_SPAN, now)
            && Orderly(PeerRecord(p, peer).creations, PEER_CREATION_LIMIT, CREATION_SPAN, now)
  {
    var h := Replay(events);
    ReplayAccounts(events, now);
    OwnAlongRun(events, PeerKey(peer), now);
    var own := OwnHistory(events, PeerKey(peer));
    AccountedIsOrderly(h.policy.connections, h.connected, GLOBAL_CONNECTION_LIMIT, CONNECTION_SPAN, now);
    AccountedIsOrderly(PeerRecord(h.policy, peer).connections, own.connected, PEER_CONNECTION_LIMIT, CONNECTION_SPAN, now);
    AccountedIsOrderly(h.policy.creations, h.created, GLOBAL_CREATION_LIMIT, CREATION_SPAN, now);
    AccountedIsOrderly(PeerRecord(h.policy, peer).creations, own.created, PEER_CREATION_LIMIT, CREATION_SPAN, now);
    hide Orderly;
    hide Accounts;
    hide Replay;
    hide OwnHistory;
    hide RecordFor;
  }

  /**
   * After any run: a refused connection, repeated when the reported wait has passed, is
   * admitted if and only if the window that did not refuse it has room then.
   */
  lemma {:induction false} ReportedWaitSuffices(events: seq<Timed>, peer: seq<byte>, now: nat)
    requires InOrder(events) && forall i :: 0 <= i < |events| ==> events[i].time <= now
    requires !AllowConnection(Replay(events).policy, peer, now).allowed
    ensures var p := Replay(events).policy;
            var a := AllowConnection(p, peer, now);
            var later := now + a.retryAfter;
            AllowConnection(a.policy, peer, later).allowed <==>
              if |Live(PeerRecord(p, peer).connections, now, CONNECTION_SPAN)| == PEER_CONNECTION_LIMIT
              then |Live(p.connections, later, CONNECTION_SPAN)| < GLOBAL_CONNECTION_LIMIT
              else |Live(PeerRecord(a.policy, peer).connections, later, CONNECTION_SPAN)| < PEER_CONNECTION_LIMIT
  {
    hide *;
    ReachedWindowsAreOrderly(events, peer, now);
    ConnectionWaitSuffices(Replay(events).policy, peer, now);
  }

  /** And so for creations. */
  lemma {:induction false} ReportedCreationWaitSuffices(events: seq<Timed>, peer: seq<byte>, now: nat)
    requires InOrder(events) && forall i :: 0 <= i < |events| ==> events[i].time <= now
    requires !AllowCreation(Replay(events).policy, peer, now).allowed
    ensures var p := Replay(events).policy;
            var a := AllowCreation(p, peer, now);
            var later := now + a.retryAfter;
            AllowCreation(a.policy, peer, later).allowed <==>
              if |Live(PeerRecord(p, peer).creations, now, CREATION_SPAN)| == PEER_CREATION_LIMIT
              then |Live(p.creations, later, CREATION_SPAN)| < GLOBAL_CREATION_LIMIT
              else |Live(PeerRecord(a.policy, peer).creations, later, CREATION_SPAN)| < PEER_CREATION_LIMIT
  {
    hide *;
    ReachedWindowsAreOrderly(events, peer, now);
    CreationWaitSuffices(Replay(events).policy, peer, now);
  }

  // ----- A run after which the reported wait does not suffice -----

  function Same(n: nat, time: nat): seq<nat> {
    seq(n, _ => time)
  }

  /** Twenty-six peers connect at one moment, and some time later one more peer does, four times. */
  function Crowd(n: nat): seq<Timed>
    requires n <= 30
  {
    seq(n, i requires 0 <= i < n => if i < 26 then Timed(Connect([i + 1]), 1) else Timed(Connect([100]), 5_001))
  }

  lemma {:induction false} LiveAll(times: seq<nat>, now: nat, span: nat)
    requires forall i :: 0 <= i < |times| ==> Counts(times[i], now, span)
    ensures Live(times, now, span) == times
  {
    if times != [] {
      LiveAll(times[..|times| - 1], now, span);
    }
  }

  lemma {:induction false} PeerKeys(i: byte, j: byte)
    ensures PeerKey([i]) == [i] && ([i] == [j] <==> i == j)
  {
    assert [i][0] == i && [j][0] == j;
  }

  /** An admitted connection. */
  lemma {:induction false} Admitted(p: Policy, b: byte, now: nat)
    requires p.Valid() && Unique(p.peers) && !Resident(p.peers, [])
    requires var own := PeerRecord(p, [b]).connections; |own| < 5 && forall i :: 0 <= i < |own| ==> Counts(own[i], now, CONNECTION_SPAN)
    requires |p.connections| < 30 && forall i :: 0 <= i < |p.connections| ==> Counts(p.connections[i], now, CONNECTION_SPAN)
    ensures var a := AllowConnection(p, [b], now);
            && a.allowed && a.policy.connections == p.connections + [now] && Unique(a.policy.peers) && !Resident(a.policy.peers, [])
            && PeerRecord(a.policy, [b]).connections == PeerRecord(p, [b]).connections + [now]
            && (forall c: byte :: c != b && PeerRecord(p, [c]) == BLANK_PEER ==> PeerRecord(a.policy, [c]) == BLANK_PEER)
  {
    var record := PeerRecord(p, [b]);
    LiveAll(record.connections, now, CONNECTION_SPAN);
    LiveAll(p.connections, now, CONNECTION_SPAN);
    var left := record.(connections := record.connections + [now]);
    var a := AllowConnection(p, [b], now);
    PeerKeys(b, b);
    assert a.policy.peers == Visit(p.peers, [b], now, left);
    hide Live;
    hide Visit;
    VisitSelf(p.peers, [b], now, left, BLANK_PEER);
    forall c: byte | c != b && PeerRecord(p, [c]) == BLANK_PEER ensures PeerRecord(a.policy, [c]) == BLANK_PEER {
      PeerKeys(c, b);
      VisitOther(p.peers, [b], now, left, [c], BLANK_PEER);
    }
    hide AllowConnection;
    hide RecordFor;
    hide Resident;
    hide Unique;
  }

  ghost predicate Crowded(p: Policy, n: nat) {
    var early, late := if n <= 26 then n else 26, if n <= 26 then 0 else n - 26;
    && p.Valid() && Unique(p.peers) && !Resident(p.peers, [])
    && p.connections == Same(early, 1) + Same(late, 5_001)
    && PeerRecord(p, [100]).connections == Same(late, 5_001)
    && (forall b: byte :: n < b <= 26 ==> PeerRecord(p, [b]) == BLANK_PEER)
    && (n <= 26 ==> PeerRecord(p, [100]) == BLANK_PEER)
  }

  lemma {:induction false} CrowdStep(n: nat)
    requires 0 < n <= 30
    ensures Replay(Crowd(n)).policy
         == AllowConnection(Replay(Crowd(n - 1)).policy, [if n <= 26 then n else 100], if n <= 26 then 1 else 5_001).policy
  {
    var events := Crowd(n);
    assert events[..n - 1] == Crowd(n - 1);
    assert events[n - 1] == if n <= 26 then Timed(Connect([n]), 1) else Timed(Connect([100]), 5_001);
    hide AllowConnection;
    hide AllowCreation;
    hide PeerLookup;
  }

  lemma {:induction false} NoCrowd()
    ensures Replay(Crowd(0)).policy == EMPTY_POLICY
  {
    assert Crowd(0) == [];
  }

  lemma {:induction false} CrowdGathers(n: nat)
    requires n <= 30
    ensures Crowded(Replay(Crowd(n)).policy, n)
  {
    hide *;
    if n == 0 {
      NoCrowd();
      EmptyIsUncrowded();
    } else {
      CrowdGathers(n - 1);
      CrowdStep(n);
      CrowdGrows(Replay(Crowd(n - 1)).policy, n);
    }
  }

  lemma {:induction false} EmptyIsUncrowded()
    ensures Crowded(EMPTY_POLICY, 0)
  {
    var t := EMPTY_POLICY.peers;
    assert forall i :: 0 <= i < |t| ==> t[i].Empty?;
    forall b: byte ensures PeerRecord(EMPTY_POLICY, [b]) == BLANK_PEER {
      assert FirstHolding(t, PeerKey([b])) == |t|;
    }
    assert Same(0, 1) + Same(0, 5_001) == [];
    assert Same(0, 5_001) == [];
  }

  lemma {:induction false} CrowdGrows(p: Policy, n: nat)
    requires 0 < n <= 30 && Crowded(p, n - 1)
    ensures Crowded(AllowConnection(p, [if n <= 26 then n else 100], if n <= 26 then 1 else 5_001).policy, n)
  {
    hide RecordFor;
    hide Resident;
    hide Unique;
    hide AllowConnection;
    if n <= 26 {
      assert Same(0, 5_001) == [];
      assert Same(n - 1, 1) + [] + [1] == Same(n, 1) + [];
      Admitted(p, n, 1);
    } else {
      var k := n - 27;
      assert Same(26, 1) + Same(k, 5_001) + [5_001] == Same(26, 1) + Same(k + 1, 5_001);
      assert Same(k, 5_001) + [5_001] == Same(k + 1, 5_001);
      Admitted(p, 100, 5_001);
    }
  }

  /**
   * A reachable state in which the reported wait is not enough: the global window refuses the
   * peer's fifth call and names its own wait, but the refused call has filled the peer's own
   * window, which refuses the call that comes exactly then.
   */
  lemma {:induction false} ReportedWaitCanFail() returns (events: seq<Timed>, peer: seq<byte>, now: nat)
    ensures InOrder(events) && forall i :: 0 <= i < |events| ==> events[i].time <= now
    ensures var a := AllowConnection(Replay(events).policy, peer, now);
            !a.allowed && a.retryAfter > 0 && !AllowConnection(a.policy, peer, now + a.retryAfter).allowed
  {
    events, peer, now := Crowd(30), [100], 5_001;
    assert InOrder(events) && forall i :: 0 <= i < |events| ==> events[i].time <= now;
    hide *;
    CrowdGathers(30);
    CrowdIsRefused(Replay(events).policy);
  }

  lemma {:induction false} CrowdIsRefused(p: Policy)
    requires Crowded(p, 30)
    ensures var a := AllowConnection(p, [100], 5_001);
            !a.allowed && a.retryAfter == 5_000 && !AllowConnection(a.policy, [100], 10_001).allowed
  {
    var record := PeerRecord(p, [100]);
    LiveAll(record.connections, 5_001, CONNECTION_SPAN);
    LiveAll(p.connections, 5_001, CONNECTION_SPAN);
    var own := Same(4, 5_001) + [5_001];
    LiveAll(own, 10_001, CONNECTION_SPAN);
    var left := record.(connections := own);
    PeerKeys(100, 100);
    VisitThenFind(p.peers, [100], 5_001, left, BLANK_PEER);
    assert p.connections[0] == 1;
    hide Live;
    hide RecordFor;
    hide Visit;
    hide Unique;
    hide Resident;
  }
}
