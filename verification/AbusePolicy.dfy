/**
 * The abuse policy shared by all connections: per-peer and global admission windows, and
 * login backoff per peer and per account. Times are milliseconds supplied by the caller;
 * `now + delay` is assumed not to reach 2^64.
 */
module AbusePolicy {
  import opened Bytes
  import opened LruTable
  import opened SlidingWindow

  const PEERS := 128
  const ACCOUNTS := 256
  const PEER_KEY_BYTES := 96
  const ACCOUNT_KEY_BYTES := 32

  const PEER_CONNECTION_LIMIT := 5
  const GLOBAL_CONNECTION_LIMIT := 30
  const CONNECTION_SPAN := 10_000
  const PEER_CREATION_LIMIT := 10
  const GLOBAL_CREATION_LIMIT := 50
  const CREATION_SPAN := 600_000

  const ACCOUNT_FAILURE_LIMIT := 3
  const ACCOUNT_LOCK := 300_000
  const FAILURE_CEILING := 1_000_000

  datatype Backoff = Backoff(failures: nat, blockedUntil: nat)

  const CLEAR := Backoff(0, 0)

  datatype Peer = Peer(connections: seq<nat>, creations: seq<nat>, auth: Backoff)

  const BLANK_PEER := Peer([], [], CLEAR)

  datatype Policy = Policy(peers: seq<Slot<Peer>>, accounts: seq<Slot<Backoff>>, connections: seq<nat>, creations: seq<nat>) {
    predicate Valid() {
      |peers| == PEERS && |accounts| == ACCOUNTS
    }
  }

  const EMPTY_POLICY := Policy(Blank(PEERS), Blank(ACCOUNTS), [], [])

  // ----- Keys -----

  function Take(s: seq<byte>, n: nat): seq<byte> {
    if |s| <= n then s else s[..n]
  }

  function PeerKey(peer: seq<byte>): (k: Key)
    ensures k != []
  {
    Take(Stored(peer), PEER_KEY_BYTES - 1)
  }

  /** Account names are folded to lower case; an empty name probes with an empty key. */
  function AccountKey(name: seq<byte>): Key {
    LowerAll(Take(name, ACCOUNT_KEY_BYTES - 1))
  }

  /** Names that differ in case share a key, and names of up to 31 bytes share one only then. */
  lemma {:induction false} KeysIgnoreCase(a: seq<byte>, b: seq<byte>)
    ensures SameIgnoringCase(a, b) ==> AccountKey(a) == AccountKey(b)
    ensures |a| <= 31 && |b| <= 31 && AccountKey(a) == AccountKey(b) ==> SameIgnoringCase(a, b)
  {
    if SameIgnoringCase(a, b) {
      assert |LowerAll(a)| == |LowerAll(b)|;
      forall i | 0 <= i < |AccountKey(a)| ensures AccountKey(a)[i] == AccountKey(b)[i] {
        assert LowerAll(a)[i] == LowerAll(b)[i];
      }
    }
  }

  /** A peer has its own record up to 95 bytes of its address; a missing address is "unknown". */
  lemma {:induction false} PeerKeysAre(peer: seq<byte>)
    ensures PeerKey(peer) == if peer == [] then [117, 110, 107, 110, 111, 119, 110] else if |peer| <= 95 then peer else peer[..95]
  {
  }

  // ----- Backoff arithmetic -----

  function Doubled(delay: nat, times: nat): nat {
    if times == 0 then delay else 2 * Doubled(delay, times - 1)
  }

  function PeerDelay(failures: nat): nat {
    if failures < 3 then 0
    else
      var delay := Doubled(1000, if failures - 3 > 6 then 6 else failures - 3);
      if delay > 60_000 then 60_000 else delay
  }

  function AccountDelay(failures: nat): nat {
    if failures >= ACCOUNT_FAILURE_LIMIT then ACCOUNT_LOCK else 0
  }

  /** A completed cooldown starts a fresh set of attempts. */
  function Thaw(b: Backoff, now: nat): Backoff {
    if b.blockedUntil != 0 && b.blockedUntil <= now then CLEAR else b
  }

  function Wait(b: Backoff, now: nat): nat {
    if b.blockedUntil > now then b.blockedUntil - now else 0
  }

  function CountFailure(b: Backoff, delayFor: nat -> nat, now: nat): Backoff {
    var failures := if b.failures < FAILURE_CEILING then b.failures + 1 else b.failures;
    Backoff(failures, if delayFor(failures) > 0 then now + delayFor(failures) else b.blockedUntil)
  }

  // ----- The operations -----

  datatype Answer = Answer(allowed: bool, retryAfter: nat, policy: Policy)

  function Max(a: nat, b: nat): nat {
    if a > b then a else b
  }

  function PeerRecord(p: Policy, peer: seq<byte>): Peer {
    RecordFor(p.peers, PeerKey(peer), BLANK_PEER)
  }

  function AccountRecord(p: Policy, name: seq<byte>): Backoff {
    RecordFor(p.accounts, AccountKey(name), CLEAR)
  }

  /** The global window is only consulted, and only charged, when the peer's own admits. */
  function AllowConnection(p: Policy, peer: seq<byte>, now: nat): (a: Answer)
    requires p.Valid()
    ensures a.policy.Valid()
  {
    var record := PeerRecord(p, peer);
    var own := Admit(record.connections, PEER_CONNECTION_LIMIT, CONNECTION_SPAN, now);
    var shared := if own.allowed then Admit(p.connections, GLOBAL_CONNECTION_LIMIT, CONNECTION_SPAN, now)
                  else Verdict(false, p.connections, 0);
    Answer(
      shared.allowed,
      Max(own.retryAfter, shared.retryAfter),
      p.(peers := Visit(p.peers, PeerKey(peer), now, record.(connections := own.times)), connections := shared.times))
  }

  function AllowCreation(p: Policy, peer: seq<byte>, now: nat): (a: Answer)
    requires p.Valid()
    ensures a.policy.Valid()
  {
    var record := PeerRecord(p, peer);
    var own := Admit(record.creations, PEER_CREATION_LIMIT, CREATION_SPAN, now);
    var shared := if own.allowed then Admit(p.creations, GLOBAL_CREATION_LIMIT, CREATION_SPAN, now)
                  else Verdict(false, p.creations, 0);
    Answer(
      shared.allowed,
      Max(own.retryAfter, shared.retryAfter),
      p.(peers := Visit(p.peers, PeerKey(peer), now, record.(creations := own.times)), creations := shared.times))
  }

  /** Both records are looked up, and `peerAuth` and `accountAuth` left in them. */
  function SetAuth(p: Policy, peer: seq<byte>, name: seq<byte>, now: nat, peerAuth: Backoff, accountAuth: Backoff): (r: Policy)
    requires p.Valid()
    ensures r.Valid()
  {
    p.(peers := Visit(p.peers, PeerKey(peer), now, PeerRecord(p, peer).(auth := peerAuth)),
       accounts := Visit(p.accounts, AccountKey(name), now, accountAuth))
  }

  function AllowAuth(p: Policy, peer: seq<byte>, name: seq<byte>, now: nat): (a: Answer)
    requires p.Valid()
    ensures a.policy.Valid()
  {
    var peerAuth := Thaw(PeerRecord(p, peer).auth, now);
    var accountAuth := Thaw(AccountRecord(p, name), now);
    var wait := Max(Wait(peerAuth, now), Wait(accountAuth, now));
    Answer(wait == 0, wait, SetAuth(p, peer, name, now, peerAuth, accountAuth))
  }

  function NoteFailure(p: Policy, peer: seq<byte>, name: seq<byte>, now: nat): (r: Policy)
    requires p.Valid()
    ensures r.Valid()
  {
    SetAuth(p, peer, name, now,
      CountFailure(PeerRecord(p, peer).auth, PeerDelay, now),
      CountFailure(AccountRecord(p, name), AccountDelay, now))
  }

  function NoteSuccess(p: Policy, peer: seq<byte>, name: seq<byte>, now: nat): (r: Policy)
    requires p.Valid()
    ensures r.Valid()
  {
    SetAuth(p, peer, name, now, CLEAR, CLEAR)
  }

  /** The policy object: two record tables updated in place, and the two global windows. */
  class SecurityPolicy {
    const peers: array<Slot<Peer>>
    const accounts: array<Slot<Backoff>>
    var connections: seq<nat>
    var creations: seq<nat>

    ghost predicate Valid()
      reads peers, accounts
    {
      && peers.Length == PEERS && accounts.Length == ACCOUNTS
      && (forall i :: 0 <= i < PEERS && peers[i].Used? ==> peers[i].lastSeen <= TIME_MAX && peers[i].key != [])
      && (forall i :: 0 <= i < ACCOUNTS && accounts[i].Used? ==> accounts[i].lastSeen <= TIME_MAX && accounts[i].key != [])
    }

    ghost function View(): (p: Policy)
      requires Valid()
      reads this, peers, accounts
      ensures p.Valid()
    {
      Policy(peers[..], accounts[..], connections, creations)
    }

    constructor ()
      ensures Valid() && fresh(peers) && fresh(accounts) && View() == EMPTY_POLICY
    {
      peers := new Slot<Peer>[PEERS](_ => Empty);
      accounts := new Slot<Backoff>[ACCOUNTS](_ => Empty);
      connections, creations := [], [];
      new;
      assert peers[..] == EMPTY_POLICY.peers && accounts[..] == EMPTY_POLICY.accounts;
    }

    /** peer_record_for: the slot of the peer, made blank when it is new. */
    method FindPeer(peer: seq<byte>, now: nat) returns (index: nat)
      requires Valid() && now <= TIME_MAX
      modifies peers
      ensures Valid() && index == Choose(old(View()).peers, PeerKey(peer))
      ensures peers[..] == old(peers[..])[index := Used(PeerKey(peer), now, old(PeerRecord(View(), peer)))]
    {
      var key := PeerKey(peer);
      var found;
      index, found := Locate(peers, key);
      if found {
        peers[index] := peers[index].(lastSeen := now);
      } else {
        peers[index] := Used(Stored(key), now, BLANK_PEER);
      }
    }

    /** account_record_for. */
    method FindAccount(name: seq<byte>, now: nat) returns (index: nat)
      requires Valid() && now <= TIME_MAX
      modifies accounts
      ensures Valid() && index == Choose(old(View()).accounts, AccountKey(name))
      ensures accounts[..] == old(accounts[..])[index := Used(Stored(AccountKey(name)), now, old(AccountRecord(View(), name)))]
    {
      var key := AccountKey(name);
      var found;
      index, found := Locate(accounts, key);
      if found {
        accounts[index] := accounts[index].(lastSeen := now);
      } else {
        accounts[index] := Used(Stored(key), now, CLEAR);
      }
    }
  
    method TryConnection(peer: seq<byte>, now: nat) returns (allowed: bool, retryAfter: nat)
      requires Valid() && now <= TIME_MAX
      modifies this, peers
      ensures Valid() && Answer(allowed, retryAfter, View()) == AllowConnection(old(View()), peer, now)
    {
      var index := FindPeer(peer, now);
      var own := Admit(peers[index].record.connections, PEER_CONNECTION_LIMIT, CONNECTION_SPAN, now);
      peers[index] := peers[index].(record := peers[index].record.(connections := own.times));
      allowed := false;
      var sharedRetry := 0;
      if own.allowed {
        var shared := Admit(connections, GLOBAL_CONNECTION_LIMIT, CONNECTION_SPAN, now);
        connections := shared.times;
        allowed, sharedRetry := shared.allowed, shared.retryAfter;
      }
      retryAfter := if own.retryAfter > sharedRetry then own.retryAfter else sharedRetry;
    }

    method TryCreation(peer: seq<byte>, now: nat) returns (allowed: bool, retryAfter: nat)
      requires Valid() && now <= TIME_MAX
      modifies this, peers
      ensures Valid() && Answer(allowed, retryAfter, View()) == AllowCreation(old(View()), peer, now)
    {
      var index := FindPeer(peer, now);
      var own := Admit(peers[index].record.creations, PEER_CREATION_LIMIT, CREATION_SPAN, now);
      peers[index] := peers[index].(record := peers[index].record.(creations := own.times));
      allowed := false;
      var sharedRetry := 0;
      if own.allowed {
        var shared := Admit(creations, GLOBAL_CREATION_LIMIT, CREATION_SPAN, now);
        creations := shared.times;
        allowed, sharedRetry := shared.allowed, shared.retryAfter;
      }
      retryAfter := if own.retryAfter > sharedRetry then own.retryAfter else sharedRetry;
    }

    method TryAuth(peer: seq<byte>, name: seq<byte>, now: nat) returns (allowed: bool, retryAfter: nat)
      requires Valid() && now <= TIME_MAX
      modifies peers, accounts
      ensures Valid() && Answer(allowed, retryAfter, View()) == AllowAuth(old(View()), peer, name, now)
    {
      var i := FindPeer(peer, now);
      var j := FindAccount(name, now);
      var peerAuth := peers[i].record.auth;
      if peerAuth.blockedUntil != 0 && peerAuth.blockedUntil <= now {
        peerAuth := CLEAR;
      }
      peers[i] := peers[i].(record := peers[i].record.(auth := peerAuth));
      var accountAuth := accounts[j].record;
      if accountAuth.blockedUntil != 0 && accountAuth.blockedUntil <= now {
        accountAuth := CLEAR;
      }
      accounts[j] := accounts[j].(record := accountAuth);
      retryAfter := Max(Wait(peerAuth, now), Wait(accountAuth, now));
      allowed := retryAfter == 0;
    }

    method RecordFailure(peer: seq<byte>, name: seq<byte>, now: nat)
      requires Valid() && now <= TIME_MAX
      modifies peers, accounts
      ensures Valid() && View() == NoteFailure(old(View()), peer, name, now)
    {
      var i := FindPeer(peer, now);
      var j := FindAccount(name, now);
      peers[i] := peers[i].(record := peers[i].record.(auth := CountFailure(peers[i].record.auth, PeerDelay, now)));
      accounts[j] := accounts[j].(record := CountFailure(accounts[j].record, AccountDelay, now));
    }

    method RecordSuccess(peer: seq<byte>, name: seq<byte>, now: nat)
      requires Valid() && now <= TIME_MAX
      modifies peers, accounts
      ensures Valid() && View() == NoteSuccess(old(View()), peer, name, now)
    {
      var i := FindPeer(peer, now);
      var j := FindAccount(name, now);
      peers[i] := peers[i].(record := peers[i].record.(auth := CLEAR));
      accounts[j] := accounts[j].(record := CLEAR);
    }
  }

  // ----- Global admission over every run -----

  datatype Event =
    | Connect(peer: seq<byte>)
    | Create(peer: seq<byte>)
    | Attempt(peer: seq<byte>, name: seq<byte>)
    | Failed(peer: seq<byte>, name: seq<byte>)
    | Succeeded(peer: seq<byte>, name: seq<byte>)

  datatype Timed = Timed(event: Event, time: nat)

  function Apply(p: Policy, e: Timed): (a: Answer)
    requires p.Valid()
    ensures a.policy.Valid()
  {
    match e.event
    case Connect(peer) => AllowConnection(p, peer, e.time)
    case Create(peer) => AllowCreation(p, peer, e.time)
    case Attempt(peer, name) => AllowAuth(p, peer, name, e.time)
    case Failed(peer, name) => Answer(true, 0, NoteFailure(p, peer, name, e.time))
    case Succeeded(peer, name) => Answer(true, 0, NoteSuccess(p, peer, name, e.time))
  }

  /**
   * A run: the policy it leads to, the times of the admitted connections and creations, and
   * the lookups made in either table with the records they left.
   */
  datatype History = History(
    policy: Policy, connected: seq<nat>, created: seq<nat>, peerLog: seq<Lookup<Peer>>, accountLog: seq<Lookup<Backoff>>)

  function PeerLookup(p: Policy, e: Timed): Lookup<Peer>
    requires p.Valid()
  {
    var key := PeerKey(e.event.peer);
    Lookup(key, e.time, Apply(p, e).policy.peers[Choose(p.peers, key)].record)
  }

  /** Connections and creations do not look at accounts. */
  function AccountLookups(p: Policy, e: Timed): seq<Lookup<Backoff>>
    requires p.Valid()
  {
    if e.event.Connect? || e.event.Create? then []
    else
      var key := AccountKey(e.event.name);
      [Lookup(key, e.time, Apply(p, e).policy.accounts[Choose(p.accounts, key)].record)]
  }

  function Replay(events: seq<Timed>): (h: History)
    ensures h.policy.Valid() && |h.peerLog| == |events|
  {
    if events == [] then History(EMPTY_POLICY, [], [], [], [])
    else
      var h := Replay(events[..|events| - 1]);
      var e := events[|events| - 1];
      var a := Apply(h.policy, e);
      History(
        a.policy,
        if e.event.Connect? && a.allowed then h.connected + [e.time] else h.connected,
        if e.event.Create? && a.allowed then h.created + [e.time] else h.created,
        h.peerLog + [PeerLookup(h.policy, e)],
        h.accountLog + AccountLookups(h.policy, e))
  }

  predicate InOrder(events: seq<Timed>) {
    forall i, j :: 0 <= i < j < |events| ==> events[i].time <= events[j].time
  }

  /** The window is that of the history, as of some earlier moment, and the history is spaced. */
  ghost predicate Accounts(window: seq<nat>, history: seq<nat>, limit: nat, span: nat, now: nat) {
    Spaced(history, limit, span) && exists at: nat :: at <= now && Represents(window, history, at, span)
  }

  lemma {:induction false} AdmitAccounts(window: seq<nat>, history: seq<nat>, limit: nat, span: nat, before: nat, now: nat)
    requires 0 < limit && 0 < span && before <= now && Accounts(window, history, limit, span, before)
    ensures var v := Admit(window, limit, span, now);
            Accounts(v.times, Record(history, v, now), limit, span, now)
  {
    var at: nat :| at <= before && Represents(window, history, at, span);
    CallKeepsSpacing(window, history, at, limit, span, now);
  }

  lemma {:induction false} AccountsLater(window: seq<nat>, history: seq<nat>, limit: nat, span: nat, before: nat, now: nat)
    requires before <= now && Accounts(window, history, limit, span, before)
    ensures Accounts(window, history, limit, span, now)
  {
    var at: nat :| at <= before && Represents(window, history, at, span);
    assert at <= now;
  }

  /** A global window is asked at most once by an event, and by no event of another kind. */
  lemma {:induction false} ApplyAsksOnce(p: Policy, e: Timed)
    requires p.Valid()
    ensures var a := Apply(p, e);
            var c := Admit(p.connections, GLOBAL_CONNECTION_LIMIT, CONNECTION_SPAN, e.time);
            || (a.policy.connections == p.connections && !(e.event.Connect? && a.allowed))
            || (a.policy.connections == c.times && (e.event.Connect? && a.allowed <==> c.allowed))
    ensures var a := Apply(p, e);
            var c := Admit(p.creations, GLOBAL_CREATION_LIMIT, CREATION_SPAN, e.time);
            || (a.policy.creations == p.creations && !(e.event.Create? && a.allowed))
            || (a.policy.creations == c.times && (e.event.Create? && a.allowed <==> c.allowed))
  {
    hide Admit;
    hide Visit;
    hide RecordFor;
    hide CountFailure;
  }

  lemma {:induction false} ApplyAccounts(h: History, e: Timed, before: nat)
    requires h.policy.Valid() && before <= e.time
    requires Accounts(h.policy.connections, h.connected, GLOBAL_CONNECTION_LIMIT, CONNECTION_SPAN, before)
    requires Accounts(h.policy.creations, h.created, GLOBAL_CREATION_LIMIT, CREATION_SPAN, before)
    ensures var a := Apply(h.policy, e);
            && Accounts(a.policy.connections, if e.event.Connect? && a.allowed then h.connected + [e.time] else h.connected,
                        GLOBAL_CONNECTION_LIMIT, CONNECTION_SPAN, e.time)
            && Accounts(a.policy.creations, if e.event.Create? && a.allowed then h.created + [e.time] else h.created,
                        GLOBAL_CREATION_LIMIT, CREATION_SPAN, e.time)
  {
    AdmitAccounts(h.policy.connections, h.connected, GLOBAL_CONNECTION_LIMIT, CONNECTION_SPAN, before, e.time);
    AdmitAccounts(h.policy.creations, h.created, GLOBAL_CREATION_LIMIT, CREATION_SPAN, before, e.time);
    hide Apply;
    hide Accounts;
    hide Admit;
    hide Policy.Valid;
    AccountsLater(h.policy.connections, h.connected, GLOBAL_CONNECTION_LIMIT, CONNECTION_SPAN, before, e.time);
    AccountsLater(h.policy.creations, h.created, GLOBAL_CREATION_LIMIT, CREATION_SPAN, before, e.time);
    ApplyAsksOnce(h.policy, e);
  }

  lemma {:induction false} ReplayAccounts(events: seq<Timed>, now: nat)
    requires InOrder(events) && forall i :: 0 <= i < |events| ==> events[i].time <= now
    ensures var h := Replay(events);
            && Accounts(h.policy.connections, h.connected, GLOBAL_CONNECTION_LIMIT, CONNECTION_SPAN, now)
            && Accounts(h.policy.creations, h.created, GLOBAL_CREATION_LIMIT, CREATION_SPAN, now)
  {
    if events == [] {
      assert Represents([], [], 0, CONNECTION_SPAN) && Represents([], [], 0, CREATION_SPAN);
    } else {
      var front := events[..|events| - 1];
      var e := events[|events| - 1];
      ReplayAccounts(front, e.time);
      ApplyAccounts(Replay(front), e, e.time);
      hide Spaced;
      hide Represents;
    }
  }

  /**
   * Whatever peers and accounts appear, and whatever their records' evictions: every run
   * under non-decreasing time admits at most 30 connections in any 10 seconds and at most
   * 50 account creations in any 10 minutes.
   */
  lemma {:induction false} GlobalLimitsHold(events: seq<Timed>, now: nat)
    requires InOrder(events)
    ensures var h := Replay(events);
            && Sorted(h.connected) && Spaced(h.connected, GLOBAL_CONNECTION_LIMIT, CONNECTION_SPAN)
            && Sorted(h.created) && Spaced(h.created, GLOBAL_CREATION_LIMIT, CREATION_SPAN)
            && |Live(h.connected, now, CONNECTION_SPAN)| <= GLOBAL_CONNECTION_LIMIT
            && |Live(h.created, now, CREATION_SPAN)| <= GLOBAL_CREATION_LIMIT
  {
    var end := if events == [] then 0 else events[|events| - 1].time;
    ReplayAccounts(events, end);
    var h := Replay(events);
    hide Live;
    SpacedBoundsEveryWindow(h.connected, GLOBAL_CONNECTION_LIMIT, CONNECTION_SPAN, now);
    SpacedBoundsEveryWindow(h.created, GLOBAL_CREATION_LIMIT, CREATION_SPAN, now);
  }

  // ----- The tables over every run -----

  lemma {:induction false} ApplyVisits(p: Policy, e: Timed)
    requires p.Valid()
    ensures var l := PeerLookup(p, e);
            Apply(p, e).policy.peers == Visit(p.peers, l.key, l.time, l.record)
    ensures var ls := AccountLookups(p, e);
            Apply(p, e).policy.accounts == if ls == [] then p.accounts else Visit(p.accounts, ls[0].key, ls[0].time, ls[0].record)
  {
    hide Admit;
    hide Choose;
    hide RecordFor;
  }

  /** An account name that would probe with the empty key is not a lookup of a named account. */
  predicate NamesGiven(events: seq<Timed>) {
    forall i :: 0 <= i < |events| && !events[i].event.Connect? && !events[i].event.Create? ==> events[i].event.name != []
  }

  /** Both tables evolve as sequences of lookups, one of the peer per event. */
  lemma {:induction false} ReplayIsLookups(events: seq<Timed>)
    ensures var h := Replay(events);
            && h.policy.peers == AfterLookups(PEERS, h.peerLog)
            && h.policy.accounts == AfterLookups(ACCOUNTS, h.accountLog)
  {
    if events != [] {
      var front := events[..|events| - 1];
      ReplayIsLookups(front);
      var h := Replay(front);
      var e := events[|events| - 1];
      ApplyVisits(h.policy, e);
      hide Apply;
      hide Visit;
      hide Choose;
      assert (h.peerLog + [PeerLookup(h.policy, e)])[..|h.peerLog|] == h.peerLog;
      assert h.accountLog + [] == h.accountLog;
      var ls := AccountLookups(h.policy, e);
      assert (h.accountLog + ls)[..|h.accountLog|] == h.accountLog;
    }
  }

  predicate NotAfter<R>(log: seq<Lookup<R>>, now: nat) {
    forall i :: 0 <= i < |log| ==> log[i].time <= now
  }

  lemma {:induction false} AppendOrdered<R>(log: seq<Lookup<R>>, more: seq<Lookup<R>>, before: nat, now: nat)
    requires Monotone(log) && NotAfter(log, before) && before <= now && |more| <= 1
    requires forall i :: 0 <= i < |more| ==> more[i].time == now
    ensures Monotone(log + more) && NotAfter(log + more, now)
    ensures Named(log) && Named(more) ==> Named(log + more)
  {
  }

  ghost predicate LogsOrdered(h: History, named: bool, now: nat) {
    && Named(h.peerLog) && Monotone(h.peerLog) && NotAfter(h.peerLog, now)
    && Monotone(h.accountLog) && NotAfter(h.accountLog, now)
    && (named ==> Named(h.accountLog))
  }

  lemma {:induction false} LogsStayOrdered(h: History, e: Timed, named: bool)
    requires h.policy.Valid() && LogsOrdered(h, named, e.time)
    requires named ==> e.event.Connect? || e.event.Create? || e.event.name != []
    ensures LogsOrdered(h.(peerLog := h.peerLog + [PeerLookup(h.policy, e)], accountLog := h.accountLog + AccountLookups(h.policy, e)),
                        named, e.time)
  {
    hide Apply;
    AppendOrdered(h.peerLog, [PeerLookup(h.policy, e)], e.time, e.time);
    AppendOrdered(h.accountLog, AccountLookups(h.policy, e), e.time, e.time);
    assert named ==> Named(AccountLookups(h.policy, e));
  }

  lemma {:induction false} LogsAreOrdered(events: seq<Timed>, now: nat)
    requires InOrder(events) && forall i :: 0 <= i < |events| ==> events[i].time <= now
    ensures LogsOrdered(Replay(events), NamesGiven(events), now)
  {
    if events != [] {
      var front := events[..|events| - 1];
      var e := events[|events| - 1];
      LogsAreOrdered(front, e.time);
      LogsStayOrdered(Replay(front), e, NamesGiven(events));
      hide Apply;
      hide PeerLookup;
      hide AccountLookups;
      hide Monotone;
      hide Named;
    }
  }

  lemma {:induction false} LogsAreInOrder(events: seq<Timed>)
    requires InOrder(events)
    ensures var h := Replay(events);
            Named(h.peerLog) && Monotone(h.peerLog) && Monotone(h.accountLog) && (NamesGiven(events) ==> Named(h.accountLog))
  {
    LogsAreOrdered(events, if events == [] then 0 else events[|events| - 1].time);
  }

  /**
   * Over every run under non-decreasing time, a peer (an account) that was looked up still
   * has its record, exactly as its last lookup left it, unless at least 128 (256) distinct
   * other keys were looked up at or after its last lookup time; and keys are unique.
   */
  lemma {:induction false} LimitsAreForgottenOnlyUnderPressure(events: seq<Timed>)
    requires InOrder(events)
    ensures var h := Replay(events);
            && Unique(h.policy.peers) && Tracks(h.policy.peers, h.peerLog) && Remembers(h.policy.peers, h.peerLog)
            && (NamesGiven(events) ==>
                  Unique(h.policy.accounts) && Tracks(h.policy.accounts, h.accountLog) && Remembers(h.policy.accounts, h.accountLog))
  {
    assert PEERS > 0 && ACCOUNTS > 0;
    hide *;
    var h := Replay(events);
    ReplayIsLookups(events);
    LogsAreInOrder(events);
    TableForgetsOnlyUnderPressure(PEERS, h.peerLog);
    if NamesGiven(events) {
      TableForgetsOnlyUnderPressure(ACCOUNTS, h.accountLog);
    }
  }

  // ----- Reported waits -----

  /** The wait reported for a login is exact: repeated after `wait` more milliseconds, it is allowed iff that has passed. */
  lemma {:induction false} AuthWaitIsExact(p: Policy, peer: seq<byte>, name: seq<byte>, now: nat, wait: nat)
    requires p.Valid() && name != []
    ensures var a := AllowAuth(p, peer, name, now);
            AllowAuth(a.policy, peer, name, now + wait).allowed <==> wait >= a.retryAfter
  {
    var a := AllowAuth(p, peer, name, now);
    var peerAuth := Thaw(PeerRecord(p, peer).auth, now);
    var accountAuth := Thaw(AccountRecord(p, name), now);
    VisitThenFind(p.peers, PeerKey(peer), now, PeerRecord(p, peer).(auth := peerAuth), BLANK_PEER);
    VisitThenFind(p.accounts, AccountKey(name), now, accountAuth, CLEAR);
    assert PeerRecord(a.policy, peer).auth == peerAuth;
    assert AccountRecord(a.policy, name) == accountAuth;
    hide RecordFor;
    hide Visit;
  }

  /** A window that never held more than its limit, in order, as the run keeps it. */
  ghost predicate Orderly(window: seq<nat>, limit: nat, span: nat, now: nat) {
    Sorted(window) && (forall i :: 0 <= i < |window| ==> window[i] <= now) && |window| <= limit
  }

  /**
   * The wait reported for a refused connection is exact for the window that refused, but
   * not for the call: the call, repeated at that moment, is admitted if and only if the
   * other window has room then. When the peer's window refused, that is the global window;
   * when the global window refused, it is the peer's, which the refused call has charged.
   */
  lemma {:induction false} ConnectionWaitSuffices(p: Policy, peer: seq<byte>, now: nat)
    requires p.Valid() && !AllowConnection(p, peer, now).allowed
    requires Orderly(PeerRecord(p, peer).connections, PEER_CONNECTION_LIMIT, CONNECTION_SPAN, now)
    requires Orderly(p.connections, GLOBAL_CONNECTION_LIMIT, CONNECTION_SPAN, now)
    ensures var a := AllowConnection(p, peer, now);
            var later := now + a.retryAfter;
            AllowConnection(a.policy, peer, later).allowed <==>
              if |Live(PeerRecord(p, peer).connections, now, CONNECTION_SPAN)| == PEER_CONNECTION_LIMIT
              then |Live(p.connections, later, CONNECTION_SPAN)| < GLOBAL_CONNECTION_LIMIT
              else |Live(PeerRecord(a.policy, peer).connections, later, CONNECTION_SPAN)| < PEER_CONNECTION_LIMIT
  {
    var record := PeerRecord(p, peer);
    var a := AllowConnection(p, peer, now);
    var own := Admit(record.connections, PEER_CONNECTION_LIMIT, CONNECTION_SPAN, now);
    VisitThenFind(p.peers, PeerKey(peer), now, record.(connections := own.times), BLANK_PEER);
    assert PeerRecord(a.policy, peer).connections == own.times;
    hide RecordFor;
    hide Visit;
    if own.allowed {
      RepeatAdmits(p.connections, GLOBAL_CONNECTION_LIMIT, CONNECTION_SPAN, now);
    } else {
      RepeatAdmits(record.connections, PEER_CONNECTION_LIMIT, CONNECTION_SPAN, now);
    }
  }

  /** The same for account creations. */
  lemma {:induction false} CreationWaitSuffices(p: Policy, peer: seq<byte>, now: nat)
    requires p.Valid() && !AllowCreation(p, peer, now).allowed
    requires Orderly(PeerRecord(p, peer).creations, PEER_CREATION_LIMIT, CREATION_SPAN, now)
    requires Orderly(p.creations, GLOBAL_CREATION_LIMIT, CREATION_SPAN, now)
    ensures var a := AllowCreation(p, peer, now);
            var later := now + a.retryAfter;
            AllowCreation(a.policy, peer, later).allowed <==>
              if |Live(PeerRecord(p, peer).creations, now, CREATION_SPAN)| == PEER_CREATION_LIMIT
              then |Live(p.creations, later, CREATION_SPAN)| < GLOBAL_CREATION_LIMIT
              else |Live(PeerRecord(a.policy, peer).creations, later, CREATION_SPAN)| < PEER_CREATION_LIMIT
  {
    var record := PeerRecord(p, peer);
    var a := AllowCreation(p, peer, now);
    var own := Admit(record.creations, PEER_CREATION_LIMIT, CREATION_SPAN, now);
    VisitThenFind(p.peers, PeerKey(peer), now, record.(creations := own.times), BLANK_PEER);
    assert PeerRecord(a.policy, peer).creations == own.times;
    hide RecordFor;
    hide Visit;
    if own.allowed {
      RepeatAdmits(p.creations, GLOBAL_CREATION_LIMIT, CREATION_SPAN, now);
    } else {
      RepeatAdmits(record.creations, PEER_CREATION_LIMIT, CREATION_SPAN, now);
    }
  }

  /** After a refusal and its reported wait, the window it leaves behind admits. */
  lemma {:induction false} RepeatAdmits(window: seq<nat>, limit: nat, span: nat, now: nat)
    requires 0 < limit && 0 < span && Orderly(window, limit, span, now) && !Admit(window, limit, span, now).allowed
    ensures var v := Admit(window, limit, span, now);
            |Live(window, now, span)| == limit && Admit(v.times, limit, span, now + v.retryAfter).allowed
  {
    var v := Admit(window, limit, span, now);
    LiveIsSuffix(window, now, span);
    LiveOfLive(window, now, now + v.retryAfter, span);
    LiveOfLive(window, now, now, span);
    assert Represents(v.times, window, now, span);
    RetryAfterIsLeastWait(v.times, window, now, limit, span, now, v.retryAfter);
  }
}
