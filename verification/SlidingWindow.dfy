/**
 * The rolling event window of the abuse policy: a bounded array of admission times that
 * is compacted in place, against the full history of admissions.
 */
module SlidingWindow {

  const CAPACITY := 64

  predicate Sorted(times: seq<nat>) {
    forall i, j :: 0 <= i < j < |times| ==> times[i] <= times[j]
  }

  /** An event still counts at `now`: it lies in (now - span, now]. */
  predicate Counts(event: nat, now: nat, span: nat) {
    now >= event && now - event < span
  }

  function Live(times: seq<nat>, now: nat, span: nat): seq<nat> {
    if times == [] then []
    else
      var before := Live(times[..|times| - 1], now, span);
      var last := times[|times| - 1];
      if Counts(last, now, span) then before + [last] else before
  }

  datatype Verdict = Verdict(allowed: bool, times: seq<nat>, retryAfter: nat)

  function Admit(times: seq<nat>, limit: nat, span: nat, now: nat): Verdict
    requires limit > 0
  {
    var live := Live(times, now, span);
    if |live| >= limit then
      var age := if now >= live[0] then now - live[0] else 0;
      Verdict(false, live, if age >= span then 0 else span - age)
    else
      Verdict(true, live + [now], 0)
  }

  /** The window as the source stores it. */
  class EventWindow {
    const times: array<nat>
    var count: nat

    ghost predicate Valid()
      reads this
    {
      times.Length == CAPACITY && count <= CAPACITY
    }

    ghost function Contents(): seq<nat>
      requires Valid()
      reads this, times
    {
      times[..count]
    }

    constructor ()
      ensures Valid() && fresh(times) && Contents() == []
    {
      times := new nat[CAPACITY](_ => 0);
      count := 0;
    }

    /** Drops expired events, moving the others down over them. */
    method Prune(now: nat, span: nat)
      requires Valid()
      modifies this, times
      ensures Valid() && Contents() == Live(old(Contents()), now, span)
      ensures count <= old(count)
    {
      ghost var was := times[..count];
      var write := 0;
      for read := 0 to count
        invariant count == old(count) && Valid()
        invariant 0 <= write <= read <= count
        invariant times[..write] == Live(was[..read], now, span)
        invariant times[read..count] == was[read..]
      {
        assert times[read] == times[read..count][0] == was[read];
        var event := times[read];
        assert was[..read + 1][..read] == was[..read];
        assert times[read + 1..count] == times[read..count][1..] == was[read..][1..] == was[read + 1..];
        if now >= event && now - event < span {
          times[write] := event;
          assert times[..write + 1] == times[..write] + [event];
          write := write + 1;
        }
      }
      assert was[..count] == was;
      count := write;
    }

    method Allow(limit: nat, span: nat, now: nat) returns (allowed: bool, retryAfter: nat)
      requires Valid() && 0 < limit <= CAPACITY
      modifies this, times
      ensures Valid()
      ensures Verdict(allowed, Contents(), retryAfter) == Admit(old(Contents()), limit, span, now)
    {
      Prune(now, span);
      ghost var live := Contents();
      if count >= limit {
        var oldest := times[0];
        var age := if now >= oldest then now - oldest else 0;
        return false, if age >= span then 0 else span - age;
      }
      times[count] := now;
      count := count + 1;
      assert Contents() == live + [now];
      return true, 0;
    }
  }

  // ----- Refinement of the full history -----

  /** Pruning twice, later the second time, is pruning once at the later time. */
  lemma {:induction false} LiveOfLive(times: seq<nat>, earlier: nat, now: nat, span: nat)
    requires earlier <= now
    requires forall i :: 0 <= i < |times| ==> times[i] <= earlier
    ensures Live(Live(times, earlier, span), now, span) == Live(times, now, span)
  {
    if times != [] {
      var front := times[..|times| - 1];
      var last := times[|times| - 1];
      LiveOfLive(front, earlier, now, span);
      var live := Live(front, earlier, span);
      assert (live + [last])[..|live|] == live;
    }
  }

  /** How many leading events of a sorted history have expired; all later ones count. */
  function Expired(times: seq<nat>, now: nat, span: nat): (k: nat)
    requires Sorted(times) && forall i :: 0 <= i < |times| ==> times[i] <= now
    ensures k <= |times|
    ensures forall i :: 0 <= i < |times| ==> (Counts(times[i], now, span) <==> k <= i)
  {
    if times == [] || Counts(times[0], now, span) then 0
    else
      assert forall i :: 1 <= i < |times| ==> times[i] == times[1..][i - 1];
      1 + Expired(times[1..], now, span)
  }

  lemma {:induction false} LiveFrom(times: seq<nat>, k: nat, now: nat, span: nat)
    requires k <= |times|
    requires forall i :: 0 <= i < |times| ==> (Counts(times[i], now, span) <==> k <= i)
    ensures Live(times, now, span) == times[k..]
  {
    if times != [] {
      var front := times[..|times| - 1];
      if k == |times| {
        LiveFrom(front, k - 1, now, span);
      } else {
        LiveFrom(front, k, now, span);
        assert times[k..] == front[k..] + [times[|times| - 1]];
      }
    }
  }

  /** In a sorted history the live events are the suffix after the expired ones. */
  lemma {:induction false} LiveIsSuffix(times: seq<nat>, now: nat, span: nat)
    requires Sorted(times) && forall i :: 0 <= i < |times| ==> times[i] <= now
    ensures Live(times, now, span) == times[Expired(times, now, span)..]
  {
    LiveFrom(times, Expired(times, now, span), now, span);
  }

  /** The window after the admissions `history`, last used at `at`. */
  ghost predicate Represents(window: seq<nat>, history: seq<nat>, at: nat, span: nat) {
    && Sorted(history) && (forall i :: 0 <= i < |history| ==> history[i] <= at)
    && window == Live(history, at, span)
  }

  /** One admission more; a refusal leaves the history alone. */
  function Record(history: seq<nat>, v: Verdict, now: nat): seq<nat> {
    if v.allowed then history + [now] else history
  }

  /**
   * Under non-decreasing time the bounded window decides as the full history would: a
   * call is admitted iff fewer than `limit` admissions lie in (now - span, now].
   */
  lemma {:induction false} AdmitRefinesHistory(window: seq<nat>, history: seq<nat>, at: nat, limit: nat, span: nat, now: nat)
    requires 0 < limit && 0 < span && Represents(window, history, at, span) && at <= now
    requires |Live(history, now, span)| <= limit
    ensures var v := Admit(window, limit, span, now);
            && (v.allowed <==> |Live(history, now, span)| < limit)
            && Represents(v.times, Record(history, v, now), now, span)
            && |v.times| <= limit
  {
    LiveOfLive(history, at, now, span);
    assert (history + [now])[..|history|] == history;
    assert Live(history + [now], now, span) == Live(history, now, span) + [now];
    hide Live;
  }

  /** A refusal reports the least wait after which the history, left alone, admits again. */
  lemma {:induction false} RetryAfterIsLeastWait(window: seq<nat>, history: seq<nat>, at: nat, limit: nat, span: nat, now: nat, wait: nat)
    requires 0 < limit && Represents(window, history, at, span) && at <= now
    requires |Live(history, now, span)| == limit
    ensures var v := Admit(window, limit, span, now);
            !v.allowed && v.retryAfter > 0 && (|Live(history, now + wait, span)| < limit <==> wait >= v.retryAfter)
  {
    LiveOfLive(history, at, now, span);
    LiveIsSuffix(history, now, span);
    LiveIsSuffix(history, now + wait, span);
    var first := Expired(history, now, span);
    assert Live(history, now, span)[0] == history[first];
    assert Counts(history[first], now, span);
    var later := Expired(history, now + wait, span);
    assert first > 0 ==> !Counts(history[first - 1], now + wait, span);
    assert later > first <==> !Counts(history[first], now + wait, span);
  }

  // ----- Whole runs -----

  /** At most `limit` events in any window of length `span`: the event `limit` places on is that much later. */
  predicate Spaced(times: seq<nat>, limit: nat, span: nat) {
    forall i :: 0 <= i < |times| - limit ==> times[i] + span <= times[i + limit]
  }

  lemma {:induction false} SpacedBoundsEveryWindow(times: seq<nat>, limit: nat, span: nat, now: nat)
    requires Sorted(times) && Spaced(times, limit, span)
    ensures |Live(times, now, span)| <= limit
  {
    var past := times[..Before(times, now)];
    LiveUpTo(times, |past|, now, span);
    LiveIsSuffix(past, now, span);
    var i := |past| - limit - 1;
    if i >= 0 {
      assert times[i] + span <= times[i + limit] == past[i + limit] <= now;
      assert !Counts(past[i], now, span);
    }
  }

  /** How many leading events are not after `now`. */
  function Before(times: seq<nat>, now: nat): (k: nat)
    requires Sorted(times)
    ensures k <= |times|
    ensures forall i :: 0 <= i < |times| ==> (times[i] <= now <==> i < k)
  {
    if times == [] || times[|times| - 1] <= now then |times| else Before(times[..|times| - 1], now)
  }

  lemma {:induction false} LiveUpTo(times: seq<nat>, k: nat, now: nat, span: nat)
    requires k <= |times| && forall i :: k <= i < |times| ==> times[i] > now
    ensures Live(times, now, span) == Live(times[..k], now, span)
  {
    if k < |times| {
      LiveUpTo(times[..|times| - 1], k, now, span);
      assert times[..|times| - 1][..k] == times[..k];
    } else {
      assert times[..k] == times;
    }
  }

  /** Admitting under the limit keeps the history spaced. */
  lemma {:induction false} AdmissionKeepsSpacing(history: seq<nat>, limit: nat, span: nat, now: nat)
    requires 0 < limit && Sorted(history) && Spaced(history, limit, span)
    requires forall i :: 0 <= i < |history| ==> history[i] <= now
    requires |Live(history, now, span)| < limit
    ensures Sorted(history + [now]) && Spaced(history + [now], limit, span)
  {
    LiveIsSuffix(history, now, span);
    var i := |history| - limit;
    if i >= 0 {
      assert !Counts(history[i], now, span);
    }
  }

  /** The verdicts of a run of calls at the given times, starting from an empty window. */
  function Admissions(calls: seq<nat>, limit: nat, span: nat): (r: (seq<nat>, seq<nat>))
    requires limit > 0
  {
    if calls == [] then ([], [])
    else
      var (window, history) := Admissions(calls[..|calls| - 1], limit, span);
      var now := calls[|calls| - 1];
      var v := Admit(window, limit, span, now);
      (v.times, Record(history, v, now))
  }

  /** Every run under non-decreasing time admits at most `limit` calls in any window of length `span`. */
  lemma {:induction false} RunIsSpaced(calls: seq<nat>, limit: nat, span: nat, at: nat)
    requires 0 < limit && 0 < span && Sorted(calls)
    requires forall i :: 0 <= i < |calls| ==> calls[i] <= at
    requires calls != [] ==> at == calls[|calls| - 1]
    ensures var (window, history) := Admissions(calls, limit, span);
            && Represents(window, history, at, span) && Spaced(history, limit, span)
            && |window| <= limit && Sorted(window)
  {
    if calls != [] {
      var front := calls[..|calls| - 1];
      var before := if front == [] then 0 else front[|front| - 1];
      RunIsSpaced(front, limit, span, before);
      var (window, history) := Admissions(front, limit, span);
      CallKeepsSpacing(window, history, before, limit, span, at);
      LiveIsSuffix(Admissions(calls, limit, span).1, at, span);
    }
  }

  lemma {:induction false} CallKeepsSpacing(window: seq<nat>, history: seq<nat>, before: nat, limit: nat, span: nat, now: nat)
    requires 0 < limit && 0 < span && Represents(window, history, before, span) && before <= now
    requires Spaced(history, limit, span)
    ensures var v := Admit(window, limit, span, now);
            var longer := Record(history, v, now);
            && (v.allowed <==> |Live(history, now, span)| < limit)
            && Represents(v.times, longer, now, span) && Spaced(longer, limit, span) && |v.times| <= limit
  {
    SpacedBoundsEveryWindow(history, limit, span, now);
    AdmitRefinesHistory(window, history, before, limit, span, now);
    if |Live(history, now, span)| < limit {
      AdmissionKeepsSpacing(history, limit, span, now);
    }
  }
}
