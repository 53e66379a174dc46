/**
 * One side of one Telnet option under the Q method of RFC 1143, and the table of
 * 256 local and 256 remote sides that a connection owns.
 */
module QMethod {
  import opened Bytes

  datatype State = No | Yes | WantNo | WantYes

  /** `opposite` is the queue bit: the opposite request waits for the current answer. */
  datatype Side = Side(state: State, opposite: bool)

  datatype Direction = Local | Remote

  /** What a step makes this side send: nothing, its enabling or its disabling command. */
  datatype Reply = Silent | Affirm | Deny

  datatype Outcome = Outcome(side: Side, reply: Reply)

  datatype Command = Command(code: byte, option: byte)

  const IDLE := Side(No, false)

  function Request(s: Side, enable: bool): Outcome {
    if enable then
      match s.state
      case No => Outcome(Side(WantYes, false), Affirm)
      case Yes => Outcome(s, Silent)
      case WantNo => Outcome(s.(opposite := true), Silent)
      case WantYes => Outcome(s.(opposite := false), Silent)
    else
      match s.state
      case No => Outcome(s, Silent)
      case Yes => Outcome(Side(WantNo, false), Deny)
      case WantNo => Outcome(s.(opposite := false), Silent)
      case WantYes => Outcome(s.(opposite := true), Silent)
  }

  function ReceivePositive(s: Side, accept: bool): Outcome {
    match s.state
    case No => if accept then Outcome(Side(Yes, false), Affirm) else Outcome(s, Deny)
    case Yes => Outcome(s, Silent)
    case WantNo => if s.opposite then Outcome(Side(Yes, false), Silent) else Outcome(s.(state := No), Silent)
    case WantYes => if s.opposite then Outcome(Side(WantNo, false), Deny) else Outcome(s.(state := Yes), Silent)
  }

  function ReceiveNegative(s: Side): Outcome {
    match s.state
    case No => Outcome(s, Silent)
    case Yes => Outcome(IDLE, Deny)
    case WantNo => if s.opposite then Outcome(Side(WantYes, false), Affirm) else Outcome(s.(state := No), Silent)
    case WantYes => Outcome(IDLE, Silent)
  }

  function Receive(s: Side, positive: bool, accept: bool): Outcome {
    if positive then ReceivePositive(s, accept) else ReceiveNegative(s)
  }

  /** The queue bit is only meaningful while an answer is awaited. */
  predicate Tidy(s: Side) {
    s.opposite ==> s.state.WantNo? || s.state.WantYes?
  }

  /** Where a side that last asked for "off" and refuses every offer can be. */
  predicate Declined(s: Side) {
    s == Side(No, false) || s == Side(WantNo, false) || s == Side(WantYes, true)
  }

  /** A received command as this side sees it: its polarity and the accept answer given to it. */
  datatype Arrival = Arrival(positive: bool, accept: bool)

  function ReceiveAll(s: Side, arrivals: seq<Arrival>): Side
    decreases arrivals
  {
    if arrivals == [] then s
    else ReceiveAll(Receive(s, arrivals[0].positive, arrivals[0].accept).side, arrivals[1..])
  }

  /**
   * Disable wins: from any tidy side, after a disable request and against every later
   * command stream that the side refuses, the option is never on again.
   */
  lemma {:induction false} DisableWins(s: Side, arrivals: seq<Arrival>)
    requires Tidy(s)
    requires forall i :: 0 <= i < |arrivals| ==> !arrivals[i].accept
    ensures Declined(ReceiveAll(Request(s, false).side, arrivals))
  {
    DeclinedForever(Request(s, false).side, arrivals);
  }

  lemma {:induction false} DeclinedForever(s: Side, arrivals: seq<Arrival>)
    requires Declined(s)
    requires forall i :: 0 <= i < |arrivals| ==> !arrivals[i].accept
    ensures Declined(ReceiveAll(s, arrivals))
    decreases arrivals
  {
    if arrivals != [] {
      DeclinedForever(Receive(s, arrivals[0].positive, arrivals[0].accept).side, arrivals[1..]);
    }
  }

  // ----- The option table -----

  datatype Options = Options(local: seq<Side>, remote: seq<Side>) {
    predicate Valid() {
      |local| == 256 && |remote| == 256
    }

    function At(direction: Direction, option: byte): Side
      requires Valid()
    {
      if direction.Local? then local[option] else remote[option]
    }

    function Put(direction: Direction, option: byte, side: Side): (r: Options)
      requires Valid()
      ensures r.Valid() && r.At(direction, option) == side
      ensures forall d: Direction, o: byte :: (d, o) != (direction, option) ==> r.At(d, o) == At(d, o)
    {
      if direction.Local? then this.(local := local[option := side]) else this.(remote := remote[option := side])
    }

    predicate Enabled(direction: Direction, option: byte)
      requires Valid()
    {
      At(direction, option).state.Yes?
    }
  }

  function AllOff(): (r: Options)
    ensures r.Valid() && forall d: Direction, o: byte :: r.At(d, o) == IDLE
  {
    Options(seq(256, _ => IDLE), seq(256, _ => IDLE))
  }

  function Encode(direction: Direction, reply: Reply, option: byte): seq<Command> {
    match reply
    case Silent => []
    case Affirm => [Command(if direction.Local? then WILL else DO, option)]
    case Deny => [Command(if direction.Local? then WONT else DONT, option)]
  }

  predicate IsNegotiation(code: byte) {
    code == WILL || code == WONT || code == DO || code == DONT
  }

  /** WILL and WONT speak of the peer's side of the option, DO and DONT of ours. */
  function Concerns(code: byte): Direction {
    if code == WILL || code == WONT then Remote else Local
  }

  predicate IsPositive(code: byte) {
    code == WILL || code == DO
  }

  datatype TableStep = TableStep(options: Options, sent: seq<Command>)

  function RequestOption(t: Options, direction: Direction, option: byte, enable: bool): (r: TableStep)
    requires t.Valid()
    ensures r.options.Valid()
  {
    var step := Request(t.At(direction, option), enable);
    TableStep(t.Put(direction, option, step.side), Encode(direction, step.reply, option))
  }

  function ReceiveOption(t: Options, code: byte, option: byte, accept: bool): (r: TableStep)
    requires t.Valid()
    ensures r.options.Valid()
  {
    if !IsNegotiation(code) then TableStep(t, [])
    else
      var step := Receive(t.At(Concerns(code), option), IsPositive(code), accept);
      TableStep(t.Put(Concerns(code), option, step.side), Encode(Concerns(code), step.reply, option))
  }

  /** The two 256-entry arrays that the source updates in place. */
  class Negotiator {
    const local: array<Side>
    const remote: array<Side>
    /** Commands handed to the send callback, oldest first. */
    var outbox: seq<Command>

    ghost predicate Valid() {
      local.Length == 256 && remote.Length == 256 && local != remote
    }

    ghost function Table(): (t: Options)
      requires Valid()
      reads local, remote
      ensures t.Valid()
    {
      Options(local[..], remote[..])
    }

    constructor ()
      ensures Valid() && fresh(local) && fresh(remote)
      ensures Table() == AllOff() && outbox == []
    {
      local := new Side[256](_ => IDLE);
      remote := new Side[256](_ => IDLE);
      outbox := [];
      new;
      assert local[..] == AllOff().local && remote[..] == AllOff().remote;
    }

    method Enabled(direction: Direction, option: byte) returns (on: bool)
      requires Valid()
      ensures on <==> Table().Enabled(direction, option)
    {
      on := if direction.Local? then local[option].state.Yes? else remote[option].state.Yes?;
    }

    /** Sends this side's command, if the step asks for one. */
    method Send(direction: Direction, option: byte, reply: Reply)
      modifies this`outbox
      ensures outbox == old(outbox) + Encode(direction, reply, option)
    {
      match reply
      case Silent =>
      case Affirm => outbox := outbox + [Command(if direction.Local? then WILL else DO, option)];
      case Deny => outbox := outbox + [Command(if direction.Local? then WONT else DONT, option)];
    }

    method AskFor(direction: Direction, option: byte, enable: bool)
      requires Valid()
      modifies this`outbox, local, remote
      ensures Table() == RequestOption(old(Table()), direction, option, enable).options
      ensures outbox == old(outbox) + RequestOption(old(Table()), direction, option, enable).sent
    {
      var sides := if direction.Local? then local else remote;
      var state := sides[option].state;
      if enable {
        if state == No {
          sides[option] := Side(WantYes, false);
          Send(direction, option, Affirm);
        } else if state == WantNo {
          sides[option] := sides[option].(opposite := true);
        } else if state == WantYes {
          sides[option] := sides[option].(opposite := false);
        }
      } else {
        if state == Yes {
          sides[option] := Side(WantNo, false);
          Send(direction, option, Deny);
        } else if state == WantNo {
          sides[option] := sides[option].(opposite := false);
        } else if state == WantYes {
          sides[option] := sides[option].(opposite := true);
        }
      }
    }

    method TakePositive(direction: Direction, option: byte, accept: bool)
      requires Valid()
      modifies this`outbox, local, remote
      ensures var step := ReceivePositive(old(Table()).At(direction, option), accept);
              && Table() == old(Table()).Put(direction, option, step.side)
              && outbox == old(outbox) + Encode(direction, step.reply, option)
    {
      var sides := if direction.Local? then local else remote;
      match sides[option].state
      case No =>
        if accept {
          sides[option] := Side(Yes, false);
          Send(direction, option, Affirm);
        } else {
          Send(direction, option, Deny);
        }
      case Yes =>
      case WantNo =>
        if !sides[option].opposite {
          sides[option] := sides[option].(state := No);
        } else {
          sides[option] := Side(Yes, false);
        }
      case WantYes =>
        if !sides[option].opposite {
          sides[option] := sides[option].(state := Yes);
        } else {
          sides[option] := Side(WantNo, false);
          Send(direction, option, Deny);
        }
    }

    method TakeNegative(direction: Direction, option: byte)
      requires Valid()
      modifies this`outbox, local, remote
      ensures var step := ReceiveNegative(old(Table()).At(direction, option));
              && Table() == old(Table()).Put(direction, option, step.side)
              && outbox == old(outbox) + Encode(direction, step.reply, option)
    {
      var sides := if direction.Local? then local else remote;
      match sides[option].state
      case No =>
      case Yes =>
        sides[option] := Side(No, false);
        Send(direction, option, Deny);
      case WantNo =>
        if !sides[option].opposite {
          sides[option] := sides[option].(state := No);
        } else {
          sides[option] := Side(WantYes, false);
          Send(direction, option, Affirm);
        }
      case WantYes =>
        sides[option] := Side(No, false);
    }

    /** `accept` is the accept callback's answer; it is only consulted for a positive command. */
    method Take(code: byte, option: byte, accept: bool)
      requires Valid()
      modifies this`outbox, local, remote
      ensures Table() == ReceiveOption(old(Table()), code, option, accept).options
      ensures outbox == old(outbox) + ReceiveOption(old(Table()), code, option, accept).sent
    {
      if code == WILL {
        TakePositive(Remote, option, accept);
      } else if code == WONT {
        TakeNegative(Remote, option);
      } else if code == DO {
        TakePositive(Local, option, accept);
      } else if code == DONT {
        TakeNegative(Local, option);
      }
    }
  }
}
