/**
 * Two endpoints that both run the Q method on one option: `near` is the side that
 * performs the option (its local state), `far` the side that asks for it (its remote
 * state). Two first-in first-out channels join them. `true` in a channel is the sender's
 * enabling command (WILL from near, DO from far), `false` its disabling command.
 */
module QProtocol {
  import opened QMethod

  datatype Net = Net(near: Side, far: Side, toFar: seq<bool>, toNear: seq<bool>)

  datatype End = Near | Far

  /** `accept` is the receiver's answer to an offer; it may change from one delivery to the next. */
  datatype Action = Ask(end: End, enable: bool) | Deliver(end: End, accept: bool)

  const START := Net(IDLE, IDLE, [], [])

  function Append(channel: seq<bool>, reply: Reply): seq<bool> {
    match reply
    case Silent => channel
    case Affirm => channel + [true]
    case Deny => channel + [false]
  }

  /** Delivery to an end whose incoming channel is empty is not possible. */
  predicate Possible(n: Net, action: Action) {
    action.Deliver? ==> if action.end.Near? then n.toNear != [] else n.toFar != []
  }

  function Step(n: Net, action: Action): Net
    requires Possible(n, action)
  {
    match action
    case Ask(Near, enable) =>
      var out := Request(n.near, enable);
      n.(near := out.side, toFar := Append(n.toFar, out.reply))
    case Ask(Far, enable) =>
      var out := Request(n.far, enable);
      n.(far := out.side, toNear := Append(n.toNear, out.reply))
    case Deliver(Near, accept) =>
      var out := Receive(n.near, n.toNear[0], accept);
      n.(near := out.side, toNear := n.toNear[1..], toFar := Append(n.toFar, out.reply))
    case Deliver(Far, accept) =>
      var out := Receive(n.far, n.toFar[0], accept);
      n.(far := out.side, toFar := n.toFar[1..], toNear := Append(n.toNear, out.reply))
  }

  /** Every action of the run is possible when its turn comes. */
  predicate IsRun(n: Net, actions: seq<Action>)
    decreases actions
  {
    actions == [] || (Possible(n, actions[0]) && IsRun(Step(n, actions[0]), actions[1..]))
  }

  function After(n: Net, actions: seq<Action>): Net
    requires IsRun(n, actions)
    decreases actions
  {
    if actions == [] then n else After(Step(n, actions[0]), actions[1..])
  }

  predicate Quiet(n: Net) {
    n.toFar == [] && n.toNear == []
  }

  // ----- The invariant -----

  /** The in-flight shapes, up to exchanging the two ends. */
  predicate Shape(x: State, y: State, fromX: seq<bool>, fromY: seq<bool>) {
    || (x == y == No && fromX == [] && fromY == [])
    || (x == y == Yes && fromX == [] && fromY == [])
    // a disable request, its answer, two crossing disables
    || (x == WantNo && y == Yes && fromX == [false] && fromY == [])
    || (x == WantNo && y == No && fromX == [] && fromY == [false])
    || (x == y == WantNo && fromX == [false] && fromY == [false])
    // an enable request, its two answers, two crossing enables
    || (x == WantYes && y == No && fromX == [true] && fromY == [])
    || (x == WantYes && y == No && fromX == [] && fromY == [false])
    || (x == WantYes && y == Yes && fromX == [] && fromY == [true])
    || (x == y == WantYes && fromX == [true] && fromY == [true])
    // an answer followed by the sender's next request in the same channel
    || (x == y == WantYes && fromX == [false, true] && fromY == [])
    || (x == WantYes && y == WantNo && fromX == [false, true] && fromY == [])
    || (x == WantYes && y == WantNo && fromX == [] && fromY == [true, false])
  }

  predicate Invariant(n: Net) {
    && Tidy(n.near) && Tidy(n.far)
    && ( || Shape(n.near.state, n.far.state, n.toFar, n.toNear)
         || Shape(n.far.state, n.near.state, n.toNear, n.toFar))
  }

  /** The same situation with the two ends exchanged; every definition here is symmetric in them. */
  function Swap(n: Net): Net {
    Net(n.far, n.near, n.toNear, n.toFar)
  }

  lemma AskKeepsInvariant(n: Net, enable: bool)
    requires Invariant(n)
    ensures Invariant(Step(n, Ask(Near, enable)))
  {
  }

  lemma DeliveryKeepsInvariant(n: Net, accept: bool)
    requires Invariant(n) && n.toNear != []
    ensures Invariant(Step(n, Deliver(Near, accept)))
  {
    assert |n.toNear| == 1 ==> n.toNear[1..] == [];
  }

  lemma StepKeepsInvariant(n: Net, action: Action)
    requires Invariant(n) && Possible(n, action)
    ensures Invariant(Step(n, action))
  {
    match action
    case Ask(Near, enable) => AskKeepsInvariant(n, enable);
    case Ask(Far, enable) => AskKeepsInvariant(Swap(n), enable);
    case Deliver(Near, accept) => DeliveryKeepsInvariant(n, accept);
    case Deliver(Far, accept) => DeliveryKeepsInvariant(Swap(n), accept);
  }

  /** What RFC 1143 calls an error: the command that the receiver's state excludes. */
  predicate Erroneous(receiver: State, positive: bool) {
    if positive then receiver == Yes || receiver == WantNo else receiver == No
  }

  predicate Safe(n: Net) {
    && (n.toNear != [] ==> !Erroneous(n.near.state, n.toNear[0]))
    && (n.toFar != [] ==> !Erroneous(n.far.state, n.toFar[0]))
    && |n.toNear| <= 2 && |n.toFar| <= 2
    && (Quiet(n) ==> n.near == n.far && (n.near.state == Yes || n.near.state == No))
  }

  lemma {:induction false} InvariantAlongRun(n: Net, actions: seq<Action>)
    requires Invariant(n) && IsRun(n, actions)
    ensures Invariant(After(n, actions))
    decreases actions
  {
    if actions != [] {
      StepKeepsInvariant(n, actions[0]);
      InvariantAlongRun(Step(n, actions[0]), actions[1..]);
    }
  }

  /**
   * In every interleaving of requests and deliveries, with arbitrary accept answers: no
   * error branch is taken next, each channel holds at most two commands, and when
   * nothing is in flight both ends are on or both are off.
   */
  lemma EveryRunIsSafe(actions: seq<Action>)
    requires IsRun(START, actions)
    ensures Safe(After(START, actions))
  {
    InvariantAlongRun(START, actions);
  }

  // ----- Termination -----

  predicate OnlyDeliveries(actions: seq<Action>) {
    forall i :: 0 <= i < |actions| ==> actions[i].Deliver?
  }

  function Bonus(queued: bool): nat {
    if queued then 2 else 0
  }

  /** Deliveries still possible in the shape of `Shape`; 0 when the shape does not apply. */
  function ShapeWeight(x: Side, y: Side, fromX: seq<bool>, fromY: seq<bool>): nat {
    if !Shape(x.state, y.state, fromX, fromY) || (fromX == [] && fromY == []) then 0
    else if fromX != [] && fromY != [] then 2 + Bonus(x.opposite || y.opposite)
    else if |fromX| == 2 then 3 + Bonus(x.opposite)
    else if |fromY| == 2 then 3 + Bonus(y.opposite)
    else if fromX != [] then 2 + Bonus(x.opposite)
    else if x.state == WantYes && y.state == No then 1
    else 1 + Bonus(x.opposite)
  }

  function Weight(n: Net): nat {
    var there := ShapeWeight(n.near, n.far, n.toFar, n.toNear);
    var back := ShapeWeight(n.far, n.near, n.toNear, n.toFar);
    if there < back then back else there
  }

  lemma NearDeliveryDecreasesWeight(n: Net, accept: bool)
    requires Invariant(n) && n.toNear != []
    ensures Weight(Step(n, Deliver(Near, accept))) < Weight(n)
  {
    assert |n.toNear| == 1 ==> n.toNear[1..] == [];
  }

  lemma DeliveryDecreasesWeight(n: Net, action: Action)
    requires Invariant(n) && action.Deliver? && Possible(n, action)
    ensures Weight(Step(n, action)) < Weight(n)
  {
    hide Shape;
    match action
    case Deliver(Near, accept) => NearDeliveryDecreasesWeight(n, accept);
    case Deliver(Far, accept) => NearDeliveryDecreasesWeight(Swap(n), accept);
  }

  lemma WeightIsBounded(n: Net)
    requires Invariant(n)
    ensures Weight(n) <= 5 && (Weight(n) == 0 ==> Quiet(n))
  {
  }

  lemma {:induction false} DeliveriesAreBounded(n: Net, actions: seq<Action>)
    requires Invariant(n) && IsRun(n, actions) && OnlyDeliveries(actions)
    ensures |actions| + Weight(After(n, actions)) <= Weight(n)
    decreases actions
  {
    if actions != [] {
      DeliveryDecreasesWeight(n, actions[0]);
      StepKeepsInvariant(n, actions[0]);
      DeliveriesAreBounded(Step(n, actions[0]), actions[1..]);
    }
  }

  /** Once requests stop, at most five commands are delivered: there is no WILL/DO loop. */
  lemma NegotiationTerminates(before: seq<Action>, deliveries: seq<Action>)
    requires IsRun(START, before)
    requires IsRun(After(START, before), deliveries) && OnlyDeliveries(deliveries)
    ensures |deliveries| <= 5
    ensures |deliveries| == 5 ==> Quiet(After(After(START, before), deliveries))
  {
    var n := After(START, before);
    InvariantAlongRun(START, before);
    DeliveriesAreBounded(n, deliveries);
    InvariantAlongRun(n, deliveries);
    WeightIsBounded(n);
    WeightIsBounded(After(n, deliveries));
    hide Invariant;
    hide Weight;
  }

  lemma Prepend(n: Net, action: Action, rest: seq<Action>)
    requires Possible(n, action) && IsRun(Step(n, action), rest)
    ensures IsRun(n, [action] + rest) && After(n, [action] + rest) == After(Step(n, action), rest)
  {
    assert ([action] + rest)[1..] == rest;
  }

  /** Five is the least such bound: near asks, far refuses, asks itself and changes its mind. */
  lemma FiveDeliveriesHappen() returns (before: seq<Action>, deliveries: seq<Action>)
    ensures IsRun(START, before) && IsRun(After(START, before), deliveries)
    ensures OnlyDeliveries(deliveries) && |deliveries| == 5
  {
    var asked := Net(Side(WantYes, false), IDLE, [true], []);
    var refused := Net(Side(WantYes, false), IDLE, [], [false]);
    var counter := Net(Side(WantYes, false), Side(WantYes, false), [], [false, true]);
    var n := Net(Side(WantYes, false), Side(WantYes, true), [], [false, true]);
    before := [Ask(Far, false)];
    assert Step(counter, before[0]) == n;
    Prepend(counter, Ask(Far, false), []);
    assert Step(refused, Ask(Far, true)) == counter;
    Prepend(refused, Ask(Far, true), before);
    before := [Ask(Far, true)] + before;
    assert Step(asked, Deliver(Far, false)) == refused;
    Prepend(asked, Deliver(Far, false), before);
    before := [Deliver(Far, false)] + before;
    assert Step(START, Ask(Near, true)) == asked;
    Prepend(START, Ask(Near, true), before);
    before := [Ask(Near, true)] + before;
    assert After(START, before) == n;
    deliveries := FiveFrom(n);
  }

  lemma FiveFrom(n: Net) returns (deliveries: seq<Action>)
    requires n == Net(Side(WantYes, false), Side(WantYes, true), [], [false, true])
    ensures IsRun(n, deliveries) && OnlyDeliveries(deliveries) && |deliveries| == 5
  {
    var d1 := Net(IDLE, Side(WantYes, true), [], [true]);
    var d2 := Net(Side(Yes, false), Side(WantYes, true), [true], []);
    var d3 := Net(Side(Yes, false), Side(WantNo, false), [], [false]);
    var d4 := Net(IDLE, Side(WantNo, false), [false], []);
    deliveries := [Deliver(Far, true)];
    Prepend(d4, Deliver(Far, true), []);
    assert Step(d3, Deliver(Near, true)) == d4;
    Prepend(d3, Deliver(Near, true), deliveries);
    deliveries := [Deliver(Near, true)] + deliveries;
    assert Step(d2, Deliver(Far, true)) == d3;
    Prepend(d2, Deliver(Far, true), deliveries);
    deliveries := [Deliver(Far, true)] + deliveries;
    assert Step(d1, Deliver(Near, true)) == d2;
    Prepend(d1, Deliver(Near, true), deliveries);
    deliveries := [Deliver(Near, true)] + deliveries;
    assert Step(n, Deliver(Near, false)) == d1;
    Prepend(n, Deliver(Near, false), deliveries);
    deliveries := [Deliver(Near, false)] + deliveries;
  }

  // ----- The outcome -----

  /**
   * Endpoints that accept an offer exactly when their own latest wish is "on", as the
   * session does for ECHO. A request sets the wish; deliveries do not change it.
   */
  datatype Wishing = Wishing(net: Net, nearWish: bool, farWish: bool)

  datatype Choice = Wants(end: End, enable: bool) | Hears(end: End)

  function ActionOf(w: Wishing, choice: Choice): Action {
    match choice
    case Wants(end, enable) => Ask(end, enable)
    case Hears(end) => Deliver(end, if end.Near? then w.nearWish else w.farWish)
  }

  function Choose(w: Wishing, choice: Choice): Wishing
    requires Possible(w.net, ActionOf(w, choice))
  {
    Wishing(
      Step(w.net, ActionOf(w, choice)),
      if choice.Wants? && choice.end.Near? then choice.enable else w.nearWish,
      if choice.Wants? && choice.end.Far? then choice.enable else w.farWish)
  }

  predicate IsWishingRun(w: Wishing, choices: seq<Choice>)
    decreases choices
  {
    choices == [] || (Possible(w.net, ActionOf(w, choices[0])) && IsWishingRun(Choose(w, choices[0]), choices[1..]))
  }

  function AfterChoices(w: Wishing, choices: seq<Choice>): Wishing
    requires IsWishingRun(w, choices)
    decreases choices
  {
    if choices == [] then w else AfterChoices(Choose(w, choices[0]), choices[1..])
  }

  /** A side that wishes "off" has declined; one that wishes "on" has nothing against it pending. */
  predicate SideFollows(s: Side, wish: bool) {
    if wish then s == IDLE || s == Side(Yes, false) || s == Side(WantNo, true) || s == Side(WantYes, false)
    else Declined(s)
  }

  predicate WishInvariant(w: Wishing) {
    var n := w.net;
    && Invariant(n)
    && SideFollows(n.near, w.nearWish) && SideFollows(n.far, w.farWish)
    && (Quiet(n) && n.near.state == n.far.state == No ==> !w.nearWish || !w.farWish)
    // only an unwilling side has a refusal on its way
    && (n.near.state == WantYes && n.far.state == No && n.toNear == [false] ==> !w.farWish)
    && (n.far.state == WantYes && n.near.state == No && n.toFar == [false] ==> !w.nearWish)
  }

  lemma NearChoiceKeepsWishInvariant(w: Wishing, choice: Choice)
    requires WishInvariant(w) && choice.end.Near? && Possible(w.net, ActionOf(w, choice))
    ensures WishInvariant(Choose(w, choice))
  {
    StepKeepsInvariant(w.net, ActionOf(w, choice));
  }

  lemma ChoiceKeepsWishInvariant(w: Wishing, choice: Choice)
    requires WishInvariant(w) && Possible(w.net, ActionOf(w, choice))
    ensures WishInvariant(Choose(w, choice))
  {
    hide Shape;
    if choice.end.Near? {
      NearChoiceKeepsWishInvariant(w, choice);
    } else {
      NearChoiceKeepsWishInvariant(Wishing(Swap(w.net), w.farWish, w.nearWish), choice.(end := Near));
    }
  }

  lemma {:induction false} WishInvariantAlongRun(w: Wishing, choices: seq<Choice>)
    requires WishInvariant(w) && IsWishingRun(w, choices)
    ensures WishInvariant(AfterChoices(w, choices))
    decreases choices
  {
    if choices != [] {
      ChoiceKeepsWishInvariant(w, choices[0]);
      WishInvariantAlongRun(Choose(w, choices[0]), choices[1..]);
    }
  }

  /** Nothing is in flight at the start, so the first choice is somebody's request. */
  lemma FirstChoiceEstablishes(nearWish: bool, farWish: bool, choice: Choice)
    requires Possible(START, ActionOf(Wishing(START, nearWish, farWish), choice))
    ensures WishInvariant(Choose(Wishing(START, nearWish, farWish), choice))
  {
    StepKeepsInvariant(START, ActionOf(Wishing(START, nearWish, farWish), choice));
  }

  /**
   * Negotiation computes the conjunction of the two wishes: however requests and
   * deliveries interleave, and however often either end changes its mind, when nothing is
   * in flight both ends agree, and the option is on if and only if both ends now wish it
   * on. The one exception is exact: two ends that are willing from the start and never ask.
   */
  lemma QuietOptionIsOnIffBothWishIt(nearWish: bool, farWish: bool, choices: seq<Choice>)
    requires IsWishingRun(Wishing(START, nearWish, farWish), choices)
    requires Quiet(AfterChoices(Wishing(START, nearWish, farWish), choices).net)
    ensures var end := AfterChoices(Wishing(START, nearWish, farWish), choices);
            && end.net.near == end.net.far
            && (end.net.near.state == Yes || end.net.near.state == No)
            && ((end.net.near.state == Yes <==> end.nearWish && end.farWish) <==> choices != [] || !(nearWish && farWish))
  {
    var w := Wishing(START, nearWish, farWish);
    if choices != [] {
      FirstChoiceEstablishes(nearWish, farWish, choices[0]);
      WishInvariantAlongRun(Choose(w, choices[0]), choices[1..]);
    }
  }
}
