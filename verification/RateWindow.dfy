/** The fixed-window limiter that each session keeps for bytes, lines and commands. */
module RateWindow {

  datatype Window = Window(started: nat, used: nat)

  const FRESH := Window(0, 0)

  datatype Consumed = Consumed(allowed: bool, window: Window)

  /** A window that has not started, starts in the future or is over is started anew at `now`. */
  function Renewed(w: Window, span: nat, now: nat): Window {
    if w.started == 0 || now < w.started || now - w.started >= span then Window(now, 0) else w
  }

  function Consume(w: Window, amount: nat, limit: nat, span: nat, now: nat): Consumed {
    var r := Renewed(w, span, now);
    if amount > limit || r.used > limit - amount then Consumed(false, r)
    else Consumed(true, r.(used := r.used + amount))
  }

  /** Uses still available at `now`. */
  function Left(w: Window, limit: nat, span: nat, now: nat): nat {
    var r := Renewed(w, span, now);
    if r.used > limit then 0 else limit - r.used
  }

  /** A use is granted exactly when it fits in what is left, and leaves that much less. */
  lemma {:induction false} ConsumeTakesFromLeft(w: Window, amount: nat, limit: nat, span: nat, now: nat)
    requires now > 0 && span > 0 && amount > 0
    ensures var c := Consume(w, amount, limit, span, now);
            && (c.allowed <==> amount <= Left(w, limit, span, now))
            && (c.allowed ==> Left(c.window, limit, span, now) == Left(w, limit, span, now) - amount)
  {
  }

  /**
   * At one moment, taking `first` and then `second` is taking both at once. At time zero it
   * is not: a window started then counts as not started.
   */
  lemma {:induction false} ConsumeSplits(w: Window, first: nat, second: nat, limit: nat, span: nat, now: nat)
    requires span > 0 && Consume(w, first + second, limit, span, now).allowed
    ensures var once := Consume(w, first + second, limit, span, now);
            var one := Consume(w, first, limit, span, now);
            var two := Consume(one.window, second, limit, span, now);
            && one.allowed && two.allowed
            && (two.window == once.window <==> now > 0 || first == 0)
  {
  }

  // ----- Every run of calls, against what was granted -----

  datatype Use = Use(amount: nat, now: nat)

  /** What was granted at times from `from` up to but not including `to`. */
  function Granted(grants: seq<Use>, from: int, to: int): (n: nat) {
    if grants == [] then 0
    else
      var last := grants[|grants| - 1];
      Granted(grants[..|grants| - 1], from, to) + if from <= last.now < to then last.amount else 0
  }

  function InSpan(grants: seq<Use>, from: int, span: nat): nat {
    Granted(grants, from, from + span)
  }

  datatype Ledger = Ledger(window: Window, grants: seq<Use>)

  function Spend(l: Ledger, u: Use, limit: nat, span: nat): Ledger {
    var c := Consume(l.window, u.amount, limit, span, u.now);
    Ledger(c.window, if c.allowed then l.grants + [u] else l.grants)
  }

  function SpendAll(uses: seq<Use>, limit: nat, span: nat): Ledger {
    if uses == [] then Ledger(FRESH, []) else Spend(SpendAll(uses[..|uses| - 1], limit, span), uses[|uses| - 1], limit, span)
  }

  /** Clock readings that never go back and are never zero. */
  predicate Clocked(uses: seq<Use>) {
    && (forall i :: 0 <= i < |uses| ==> uses[i].now > 0)
    && (forall i, j :: 0 <= i < j < |uses| ==> uses[i].now <= uses[j].now)
  }

  lemma {:induction false} GrantedSplits(grants: seq<Use>, from: int, middle: int, to: int)
    requires from <= middle <= to
    ensures Granted(grants, from, to) == Granted(grants, from, middle) + Granted(grants, middle, to)
  {
    if grants != [] {
      GrantedSplits(grants[..|grants| - 1], from, middle, to);
    }
  }

  lemma {:induction false} GrantedWithin(grants: seq<Use>, from: int, to: int, from': int, to': int)
    requires from' <= from && to <= to'
    ensures Granted(grants, from, to) <= Granted(grants, from', to')
  {
    if grants != [] {
      GrantedWithin(grants[..|grants| - 1], from, to, from', to');
    }
  }

  lemma {:induction false} GrantedSnoc(grants: seq<Use>, u: Use, from: int, to: int)
    ensures Granted(grants + [u], from, to) == Granted(grants, from, to) + if from <= u.now < to then u.amount else 0
  {
    assert (grants + [u])[..|grants|] == grants;
  }

  /** Nothing is granted after the last moment. */
  lemma {:induction false} NothingLater(grants: seq<Use>, from: int, to: int)
    requires forall i :: 0 <= i < |grants| ==> grants[i].now < from
    ensures Granted(grants, from, to) == 0
  {
    if grants != [] {
      NothingLater(grants[..|grants| - 1], from, to);
    }
  }

  /**
   * The window's count is what was granted since it began; less than a span before it began
   * no more than one limit was granted, and in no span more than two.
   */
  ghost predicate Booked(l: Ledger, limit: nat, span: nat, now: nat) {
    && l.window.started <= now && l.window.used <= limit && (l.window.started == 0 || now < l.window.started + span)
    && (l.window.started == 0 ==> l.grants == [] && l.window.used == 0)
    && (forall i :: 0 <= i < |l.grants| ==> l.grants[i].now <= now)
    && Granted(l.grants, l.window.started, now + 1) == l.window.used
    && (forall from: int :: from > l.window.started - span ==> Granted(l.grants, from, l.window.started) <= limit)
    && (forall from: int :: InSpan(l.grants, from, span) <= 2 * limit)
  }

  /** Beginning a window anew, if it is over, keeps the books. */
  lemma {:induction false} RenewalKeeps(l: Ledger, limit: nat, span: nat, before: nat, now: nat)
    requires span > 0 && 0 < now && before <= now && Booked(l, limit, span, before)
    ensures var r := Ledger(Renewed(l.window, span, now), l.grants);
            Booked(r, limit, span, now) && 0 < r.window.started
  {
    var w := l.window;
    GrantedSplits(l.grants, w.started, before + 1, now + 1);
    NothingLater(l.grants, before + 1, now + 1);
    if Renewed(w, span, now) != w {
      forall from: int | from > now - span ensures Granted(l.grants, from, now) <= limit {
        if w.started != 0 && from <= now {
          GrantedWithin(l.grants, from, now, w.started, now + 1);
        } else if w.started != 0 {
          NothingLater(l.grants, from, now);
        }
      }
      NothingLater(l.grants, now, now + 1);
    }
  }

  /** So does a grant that fits. */
  lemma {:induction false} GrantKeeps(l: Ledger, u: Use, limit: nat, span: nat)
    requires span > 0 && Booked(l, limit, span, u.now) && 0 < l.window.started && l.window.used + u.amount <= limit
    ensures Booked(Ledger(l.window.(used := l.window.used + u.amount), l.grants + [u]), limit, span, u.now)
  {
    hide Granted;
    var w, now, grants := l.window, u.now, l.grants + [u];
    GrantedSnoc(l.grants, u, w.started, now + 1);
    forall from: int | from > w.started - span ensures Granted(grants, from, w.started) <= limit {
      GrantedSnoc(l.grants, u, from, w.started);
    }
    forall from: int ensures InSpan(grants, from, span) <= 2 * limit {
      assert InSpan(l.grants, from, span) <= 2 * limit;
      GrantedSnoc(l.grants, u, from, from + span);
      if from <= now < from + span {
        GrantedSplits(l.grants, from, now + 1, from + span);
        NothingLater(l.grants, now + 1, from + span);
        if from <= w.started {
          GrantedSplits(l.grants, from, w.started, now + 1);
        } else {
          GrantedWithin(l.grants, from, now + 1, w.started, now + 1);
        }
      }
    }
  }

  lemma {:induction false} SpendKeeps(l: Ledger, u: Use, limit: nat, span: nat, before: nat)
    requires span > 0 && 0 < u.now && before <= u.now && Booked(l, limit, span, before)
    ensures Booked(Spend(l, u, limit, span), limit, span, u.now)
  {
    RenewalKeeps(l, limit, span, before, u.now);
    var r := Ledger(Renewed(l.window, span, u.now), l.grants);
    assert r.window.used <= limit;
    hide Booked;
    hide Renewed;
    if u.amount + r.window.used <= limit {
      GrantKeeps(r, u, limit, span);
    }
  }

  function LastTime(uses: seq<Use>): nat {
    if uses == [] then 0 else uses[|uses| - 1].now
  }

  lemma {:induction false} RunKeeps(uses: seq<Use>, limit: nat, span: nat)
    requires span > 0 && Clocked(uses)
    ensures Booked(SpendAll(uses, limit, span), limit, span, LastTime(uses))
  {
    if uses != [] {
      var front, u := uses[..|uses| - 1], uses[|uses| - 1];
      RunKeeps(front, limit, span);
      hide Booked;
      hide Spend;
      SpendKeeps(SpendAll(front, limit, span), u, limit, span, LastTime(front));
    }
  }

  /**
   * After any run: a call is granted if its amount, together with everything granted less
   * than a span ago, stays within the limit. So a limit that was reached is forgotten.
   */
  lemma {:induction false} RefusedOnlyWhenSpent(uses: seq<Use>, u: Use, limit: nat, span: nat)
    requires span > 0 && Clocked(uses + [u])
    ensures var l := SpendAll(uses, limit, span);
            !Consume(l.window, u.amount, limit, span, u.now).allowed ==>
              Granted(l.grants, u.now - span + 1, u.now + 1) + u.amount > limit
  {
    assert Clocked(uses) && u.now > 0 && LastTime(uses) <= u.now by {
      var all := uses + [u];
      assert all[|uses|] == u;
      assert forall i :: 0 <= i < |uses| ==> all[i] == uses[i];
    }
    var l := SpendAll(uses, limit, span);
    RunKeeps(uses, limit, span);
    RenewalKeeps(l, limit, span, LastTime(uses), u.now);
    var r := Renewed(l.window, span, u.now);
    GrantedWithin(l.grants, r.started, u.now + 1, u.now - span + 1, u.now + 1);
    hide Renewed;
    hide SpendAll;
  }

  /** After any run, no interval of one span holds grants of more than twice the limit. */
  lemma {:induction false} AtMostTwiceTheLimit(uses: seq<Use>, from: int, limit: nat, span: nat)
    requires span > 0 && Clocked(uses)
    ensures Granted(SpendAll(uses, limit, span).grants, from, from + span) <= 2 * limit
  {
    RunKeeps(uses, limit, span);
    assert InSpan(SpendAll(uses, limit, span).grants, from, span) <= 2 * limit;
    hide SpendAll;
  }

  /** Twice is attained: a full limit at the end of one window and another at the start of the next. */
  lemma {:induction false} TwiceTheLimitHappens(limit: nat, span: nat)
    requires span > 1 && limit > 0
    ensures var uses := [Use(0, 1), Use(limit, span), Use(limit, span + 1)];
            Clocked(uses) && Granted(SpendAll(uses, limit, span).grants, span, 2 * span) == 2 * limit
  {
    var a, b, c := Use(0, 1), Use(limit, span), Use(limit, span + 1);
    assert [a, b, c][..2] == [a, b] && [a, b][..1] == [a] && [a][..0] == [];
    assert SpendAll([], limit, span) == Ledger(FRESH, []);
    assert SpendAll([a], limit, span) == Ledger(Window(1, 0), [a]);
    assert SpendAll([a, b], limit, span) == Ledger(Window(1, limit), [a, b]);
    assert SpendAll([a, b, c], limit, span) == Ledger(Window(span + 1, limit), [a, b, c]);
    GrantedSnoc([], a, span, 2 * span);
    GrantedSnoc([a], b, span, 2 * span);
    GrantedSnoc([a, b], c, span, 2 * span);
    assert [] + [a] == [a] && [a] + [b] == [a, b] && [a, b] + [c] == [a, b, c];
  }
}
