/**
 * Two whole option tables joined by two channels of Telnet commands, as they go over the
 * wire. For every option and each way round the wire behaves as the two-ended protocol of
 * one option does, so that what is proved of that protocol holds of the commands sent.
 */
module QWire {
  import opened Bytes
  import opened QMethod
  import QProtocol

  datatype Host = Server | Client

  datatype Wire = Wire(server: Options, client: Options, toClient: seq<Command>, toServer: seq<Command>)

  datatype Act =
    | Want(host: Host, direction: Direction, option: byte, enable: bool)
    | Hear(host: Host, accept: bool)      // the head of the host's incoming channel

  predicate Valid(w: Wire) {
    w.server.Valid() && w.client.Valid()
  }

  const QUIET := Wire(AllOff(), AllOff(), [], [])

  predicate Possible(w: Wire, act: Act) {
    act.Hear? ==> if act.host.Server? then w.toServer != [] else w.toClient != []
  }

  function Step(w: Wire, act: Act): (r: Wire)
    requires Valid(w) && Possible(w, act)
    ensures Valid(r)
  {
    match act
    case Want(Server, direction, option, enable) =>
      var t := RequestOption(w.server, direction, option, enable);
      w.(server := t.options, toClient := w.toClient + t.sent)
    case Want(Client, direction, option, enable) =>
      var t := RequestOption(w.client, direction, option, enable);
      w.(client := t.options, toServer := w.toServer + t.sent)
    case Hear(Server, accept) =>
      var t := ReceiveOption(w.server, w.toServer[0].code, w.toServer[0].option, accept);
      w.(server := t.options, toServer := w.toServer[1..], toClient := w.toClient + t.sent)
    case Hear(Client, accept) =>
      var t := ReceiveOption(w.client, w.toClient[0].code, w.toClient[0].option, accept);
      w.(client := t.options, toClient := w.toClient[1..], toServer := w.toServer + t.sent)
  }

  // ----- What the codes mean (RFC 854) -----

  /** WILL (251) and WONT (252) are said by the performer of an option, DO (253) and DONT (254) to it. */
  predicate SaidBy(c: Command, performer: bool, option: byte) {
    c.option == option && if performer then c.code == 251 || c.code == 252 else c.code == 253 || c.code == 254
  }

  predicate Enables(code: byte) {
    code == 251 || code == 253
  }

  /** What a channel carries about one option from its performer, or to it. */
  function Pick(channel: seq<Command>, performer: bool, option: byte): seq<bool> {
    if channel == [] then []
    else (if SaidBy(channel[0], performer, option) then [Enables(channel[0].code)] else []) + Pick(channel[1..], performer, option)
  }

  /** One option as performed by the given host. */
  function View(w: Wire, performer: Host, option: byte): QProtocol.Net
    requires Valid(w)
  {
    if performer.Server? then
      QProtocol.Net(w.server.At(Local, option), w.client.At(Remote, option), Pick(w.toClient, true, option), Pick(w.toServer, false, option))
    else
      QProtocol.Net(w.client.At(Local, option), w.server.At(Remote, option), Pick(w.toServer, true, option), Pick(w.toClient, false, option))
  }

  /** The wire's literal codes. */
  lemma {:induction false} FirstCommands(option: byte)
    ensures RequestOption(AllOff(), Local, option, true).sent == [Command(251, option)]
    ensures RequestOption(AllOff(), Remote, option, true).sent == [Command(253, option)]
    ensures forall d: Direction, o: byte :: RequestOption(AllOff(), d, o, false).sent == []
    ensures forall t: Options :: t.Valid() && t.Enabled(Local, option) ==> RequestOption(t, Local, option, false).sent == [Command(252, option)]
    ensures forall t: Options :: t.Valid() && t.Enabled(Remote, option) ==> RequestOption(t, Remote, option, false).sent == [Command(254, option)]
  {
  }

  // ----- One step -----

  lemma {:induction false} PickConcat(a: seq<Command>, b: seq<Command>, performer: bool, option: byte)
    ensures Pick(a + b, performer, option) == Pick(a, performer, option) + Pick(b, performer, option)
  {
    if a == [] {
      assert a + b == b;
    } else {
      assert (a + b)[1..] == a[1..] + b;
      PickConcat(a[1..], b, performer, option);
    }
  }

  /** What a side sends is heard as its reply by the view it belongs to, and by no other. */
  lemma {:induction false} PickReply(channel: seq<Command>, direction: Direction, reply: Reply, option: byte, performer: bool, o: byte)
    ensures Pick(channel + Encode(direction, reply, option), performer, o)
         == if option == o && performer == direction.Local? then QProtocol.Append(Pick(channel, performer, o), reply)
            else Pick(channel, performer, o)
  {
    var sent := Encode(direction, reply, option);
    PickConcat(channel, sent, performer, o);
    if sent != [] {
      assert sent[1..] == [];
      assert Pick(sent, performer, o) == (if SaidBy(sent[0], performer, o) then [Enables(sent[0].code)] else []) + Pick([], performer, o);
    }
  }

  /** The protocol action that an act is for a view; `None` when it is about something else. */
  function Seen(w: Wire, act: Act, performer: Host, option: byte): Option<QProtocol.Action>
    requires Possible(w, act)
  {
    var end := if act.host == performer then QProtocol.Near else QProtocol.Far;
    match act
    case Want(host, direction, o, enable) =>
      if o == option && (direction.Local? <==> host == performer) then Some(QProtocol.Ask(end, enable)) else None
    case Hear(host, accept) =>
      var c := if host.Server? then w.toServer[0] else w.toClient[0];
      if SaidBy(c, host != performer, option) then Some(QProtocol.Deliver(end, accept)) else None
  }

  lemma {:induction false} RequestIsSeen(w: Wire, act: Act, performer: Host, option: byte)
    requires Valid(w) && act.Want?
    ensures var v, a := View(w, performer, option), Seen(w, act, performer, option);
            View(Step(w, act), performer, option) == if a.Some? then QProtocol.Step(v, a.value) else v
  {
    var table := if act.host.Server? then w.server else w.client;
    var out := QMethod.Request(table.At(act.direction, act.option), act.enable);
    PickReply(w.toClient, act.direction, out.reply, act.option, performer.Server?, option);
    PickReply(w.toServer, act.direction, out.reply, act.option, performer.Client?, option);
    hide Pick;
    hide Encode;
    hide QMethod.Request;
  }

  lemma {:induction false} PickTail(channel: seq<Command>, performer: bool, option: byte)
    requires channel != []
    ensures var picked := Pick(channel, performer, option);
            if SaidBy(channel[0], performer, option)
            then picked != [] && picked[0] == Enables(channel[0].code) && picked[1..] == Pick(channel[1..], performer, option)
            else picked == Pick(channel[1..], performer, option)
  {
  }

  /** A command is for the receiver's remote side if its performer said it, else for its local side. */
  lemma {:induction false} ReceiverIsRight(c: Command, performer: bool, option: byte)
    requires SaidBy(c, performer, option)
    ensures IsNegotiation(c.code) && Concerns(c.code) == (if performer then Remote else Local) && IsPositive(c.code) == Enables(c.code)
  {
  }

  lemma {:induction false} OtherIsElsewhere(c: Command, performer: bool, option: byte)
    requires !SaidBy(c, performer, option) && IsNegotiation(c.code)
    ensures c.option != option || Concerns(c.code) == if performer then Local else Remote
  {
  }

  lemma {:induction false} ServerArrivalIsSeen(w: Wire, accept: bool, performer: Host, option: byte)
    requires Valid(w) && w.toServer != []
    ensures var v, act := View(w, performer, option), Hear(Server, accept);
            var a := Seen(w, act, performer, option);
            && (a.Some? ==> QProtocol.Possible(v, a.value))
            && View(Step(w, act), performer, option) == if a.Some? then QProtocol.Step(v, a.value) else v
  {
    var c := w.toServer[0];
    var said := performer.Client?;
    PickTail(w.toServer, said, option);
    PickTail(w.toServer, !said, option);
    if SaidBy(c, said, option) {
      ReceiverIsRight(c, said, option);
    } else if IsNegotiation(c.code) {
      OtherIsElsewhere(c, said, option);
    }
    var direction := Concerns(c.code);
    if IsNegotiation(c.code) {
      var out := Receive(w.server.At(direction, c.option), IsPositive(c.code), accept);
      PickReply(w.toClient, direction, out.reply, c.option, performer.Server?, option);
    } else {
      assert w.toClient + [] == w.toClient;
    }
    hide Pick;
    hide Encode;
    hide Receive;
    hide IsNegotiation;
    hide Concerns;
    hide IsPositive;
    hide Enables;
    hide SaidBy;
  }

  /** The same situation with the hosts exchanged. */
  function Mirror(w: Wire): Wire {
    Wire(w.client, w.server, w.toServer, w.toClient)
  }

  function Other(host: Host): Host {
    if host.Server? then Client else Server
  }

  lemma {:induction false} StepIsSeen(w: Wire, act: Act, performer: Host, option: byte)
    requires Valid(w) && Possible(w, act)
    ensures var v, a := View(w, performer, option), Seen(w, act, performer, option);
            && (a.Some? ==> QProtocol.Possible(v, a.value))
            && View(Step(w, act), performer, option) == if a.Some? then QProtocol.Step(v, a.value) else v
  {
    hide Pick;
    hide SaidBy;
    match act
    case Want(_, _, _, _) => RequestIsSeen(w, act, performer, option);
    case Hear(Server, accept) => ServerArrivalIsSeen(w, accept, performer, option);
    case Hear(Client, accept) =>
      hide ReceiveOption;
      ServerArrivalIsSeen(Mirror(w), accept, Other(performer), option);
      hide QProtocol.Step;
  }

  // ----- Runs -----

  predicate IsRun(w: Wire, acts: seq<Act>)
    requires Valid(w)
    decreases acts
  {
    acts == [] || (Possible(w, acts[0]) && IsRun(Step(w, acts[0]), acts[1..]))
  }

  function After(w: Wire, acts: seq<Act>): (r: Wire)
    requires Valid(w) && IsRun(w, acts)
    ensures Valid(r)
    decreases acts
  {
    if acts == [] then w else After(Step(w, acts[0]), acts[1..])
  }

  /** The part of a run that concerns one option as performed by one host. */
  function Part(w: Wire, acts: seq<Act>, performer: Host, option: byte): seq<QProtocol.Action>
    requires Valid(w) && IsRun(w, acts)
    decreases acts
  {
    if acts == [] then []
    else
      var a := Seen(w, acts[0], performer, option);
      (if a.Some? then [a.value] else []) + Part(Step(w, acts[0]), acts[1..], performer, option)
  }

  /** Every run of the wire is, option by option, a run of the protocol. */
  lemma {:induction false} RunIsProtocol(w: Wire, acts: seq<Act>, performer: Host, option: byte)
    requires Valid(w) && IsRun(w, acts)
    ensures var v, part := View(w, performer, option), Part(w, acts, performer, option);
            QProtocol.IsRun(v, part) && QProtocol.After(v, part) == View(After(w, acts), performer, option)
    decreases acts
  {
    hide View;
    hide Seen;
    hide Step;
    hide QProtocol.Step;
    hide QProtocol.Possible;
    if acts != [] {
      StepIsSeen(w, acts[0], performer, option);
      var next, a := Step(w, acts[0]), Seen(w, acts[0], performer, option);
      RunIsProtocol(next, acts[1..], performer, option);
      var rest := Part(next, acts[1..], performer, option);
      if a.Some? {
        assert ([a.value] + rest)[1..] == rest;
      } else {
        assert [] + rest == rest;
      }
    }
  }

  lemma {:induction false} QuietView(performer: Host, option: byte)
    ensures View(QUIET, performer, option) == QProtocol.START
  {
  }

  /** Every command on the wire is one of the four and so belongs to a view. */
  predicate Spoken(channel: seq<Command>) {
    forall i :: 0 <= i < |channel| ==> 251 <= channel[i].code <= 254
  }

  lemma {:induction false} StepSpeaks(w: Wire, act: Act)
    requires Valid(w) && Possible(w, act) && Spoken(w.toServer) && Spoken(w.toClient)
    ensures Spoken(Step(w, act).toServer) && Spoken(Step(w, act).toClient)
  {
    hide QMethod.Request;
    hide Receive;
  }

  lemma {:induction false} RunSpeaks(w: Wire, acts: seq<Act>)
    requires Valid(w) && IsRun(w, acts) && Spoken(w.toServer) && Spoken(w.toClient)
    ensures Spoken(After(w, acts).toServer) && Spoken(After(w, acts).toClient)
    decreases acts
  {
    if acts != [] {
      StepSpeaks(w, acts[0]);
      hide Step;
      hide Spoken;
      RunSpeaks(Step(w, acts[0]), acts[1..]);
    }
  }

  /** The receiver's side that the head of a channel is for, and what RFC 1143 calls an error there. */
  predicate HeadMisfits(table: Options, channel: seq<Command>)
    requires table.Valid() && channel != []
  {
    var c := channel[0];
    QProtocol.Erroneous(table.At(if c.code <= 252 then Remote else Local, c.option).state, c.code == 251 || c.code == 253)
  }

  /**
   * On the wire, between two hosts that run this code from the start, in every interleaving
   * of requests and deliveries with arbitrary answers: no command that arrives next is an
   * error for its receiver, at most two commands are in flight for an option in either
   * direction, and when both channels are empty every option is agreed on, either way round.
   */
  lemma {:induction false} WireIsSafe(acts: seq<Act>, option: byte)
    requires IsRun(QUIET, acts)
    ensures var w := After(QUIET, acts);
            && (w.toServer != [] ==> !HeadMisfits(w.server, w.toServer))
            && (w.toClient != [] ==> !HeadMisfits(w.client, w.toClient))
            && (forall performer: Host :: |View(w, performer, option).toFar| <= 2 && |View(w, performer, option).toNear| <= 2)
            && (w.toServer == [] && w.toClient == [] ==>
                  && w.server.At(Local, option) == w.client.At(Remote, option)
                  && w.server.At(Remote, option) == w.client.At(Local, option)
                  && (w.server.At(Local, option).state == Yes || w.server.At(Local, option).state == No)
                  && (w.server.At(Remote, option).state == Yes || w.server.At(Remote, option).state == No))
  {
    var w := After(QUIET, acts);
    ViewIsSafe(acts, Server, option);
    ViewIsSafe(acts, Client, option);
    RunSpeaks(QUIET, acts);
    hide After;
    hide IsRun;
    if w.toServer != [] {
      HeadIsFine(acts, Server, w.toServer);
    }
    if w.toClient != [] {
      HeadIsFine(acts, Client, w.toClient);
    }
    forall performer: Host ensures QProtocol.Safe(View(w, performer, option)) {
      assert performer.Server? || performer.Client?;
    }
    hide Spoken;
    hide HeadMisfits;
  }

  lemma {:induction false} ViewIsSafe(acts: seq<Act>, performer: Host, option: byte)
    requires IsRun(QUIET, acts)
    ensures QProtocol.Safe(View(After(QUIET, acts), performer, option))
  {
    QuietView(performer, option);
    RunIsProtocol(QUIET, acts, performer, option);
    QProtocol.EveryRunIsSafe(Part(QUIET, acts, performer, option));
    hide View;
    hide QProtocol.Safe;
    hide After;
    hide QProtocol.After;
  }

  lemma {:induction false} HeadIsFine(acts: seq<Act>, receiver: Host, channel: seq<Command>)
    requires IsRun(QUIET, acts) && channel != [] && Spoken(channel)
    requires var w := After(QUIET, acts); channel == if receiver.Server? then w.toServer else w.toClient
    ensures var w := After(QUIET, acts); !HeadMisfits(if receiver.Server? then w.server else w.client, channel)
  {
    var w := After(QUIET, acts);
    hide After;
    hide IsRun;
    var c := channel[0];
    var performer := if c.code <= 252 then Other(receiver) else receiver;
    PickTail(channel, c.code <= 252, c.option);
    hide Pick;
    ViewIsSafe(acts, performer, c.option);
  }

  // ----- Termination -----

  predicate OnlyArrivals(acts: seq<Act>) {
    forall i :: 0 <= i < |acts| ==> acts[i].Hear?
  }

  lemma {:induction false} PartIsDeliveries(w: Wire, acts: seq<Act>, performer: Host, option: byte)
    requires Valid(w) && IsRun(w, acts) && OnlyArrivals(acts)
    ensures QProtocol.OnlyDeliveries(Part(w, acts, performer, option))
    decreases acts
  {
    if acts != [] {
      hide Step;
      hide SaidBy;
      PartIsDeliveries(Step(w, acts[0]), acts[1..], performer, option);
    }
  }

  /** Once requests stop, at most five of the commands about an option, either way round, are delivered. */
  lemma {:induction false} OptionSettles(before: seq<Act>, arrivals: seq<Act>, performer: Host, option: byte)
    requires IsRun(QUIET, before) && IsRun(After(QUIET, before), arrivals) && OnlyArrivals(arrivals)
    ensures |Part(After(QUIET, before), arrivals, performer, option)| <= 5
  {
    var w := After(QUIET, before);
    QuietView(performer, option);
    RunIsProtocol(QUIET, before, performer, option);
    RunIsProtocol(w, arrivals, performer, option);
    PartIsDeliveries(w, arrivals, performer, option);
    hide View;
    hide After;
    hide Part;
    hide IsRun;
    QProtocol.NegotiationTerminates(Part(QUIET, before, performer, option), Part(w, arrivals, performer, option));
  }

  /** Views of options below `n` to which an act belongs. */
  function Viewers(w: Wire, act: Act, n: nat): nat
    requires Possible(w, act) && n <= 256
  {
    if n == 0 then 0
    else Viewers(w, act, n - 1) + (if Seen(w, act, Server, n - 1).Some? then 1 else 0) + (if Seen(w, act, Client, n - 1).Some? then 1 else 0)
  }

  /** Every delivery belongs to exactly one view. */
  lemma {:induction false} OneViewer(w: Wire, act: Act, n: nat)
    requires Possible(w, act) && act.Hear? && n <= 256 && Spoken(w.toServer) && Spoken(w.toClient)
    ensures Viewers(w, act, n) == if (if act.host.Server? then w.toServer[0] else w.toClient[0]).option < n then 1 else 0
  {
    if n > 0 {
      OneViewer(w, act, n - 1);
    }
  }

  /** The lengths of the parts of a run, over the options below `n` and both ways round. */
  function Parts(w: Wire, acts: seq<Act>, n: nat): nat
    requires Valid(w) && IsRun(w, acts) && n <= 256
  {
    if n == 0 then 0
    else Parts(w, acts, n - 1) + |Part(w, acts, Server, n - 1)| + |Part(w, acts, Client, n - 1)|
  }

  lemma {:induction false} PartsStep(w: Wire, acts: seq<Act>, n: nat)
    requires Valid(w) && IsRun(w, acts) && n <= 256 && acts != []
    ensures Parts(w, acts, n) == Viewers(w, acts[0], n) + Parts(Step(w, acts[0]), acts[1..], n)
  {
    hide Step;
    hide Seen;
    if n > 0 {
      PartsStep(w, acts, n - 1);
    }
  }

  lemma {:induction false} PartsAreAll(w: Wire, acts: seq<Act>)
    requires Valid(w) && IsRun(w, acts) && OnlyArrivals(acts) && Spoken(w.toServer) && Spoken(w.toClient)
    ensures Parts(w, acts, 256) == |acts|
    decreases acts
  {
    if acts == [] {
      NoParts(w, 256);
    } else {
      StepSpeaks(w, acts[0]);
      OneViewer(w, acts[0], 256);
      PartsStep(w, acts, 256);
      hide Step;
      hide Parts;
      hide Viewers;
      hide Spoken;
      PartsAreAll(Step(w, acts[0]), acts[1..]);
    }
  }

  lemma {:induction false} NoParts(w: Wire, n: nat)
    requires Valid(w) && n <= 256
    ensures Parts(w, [], n) == 0
  {
    if n > 0 {
      NoParts(w, n - 1);
    }
  }

  lemma {:induction false} PartsAreFew(before: seq<Act>, arrivals: seq<Act>, n: nat)
    requires IsRun(QUIET, before) && IsRun(After(QUIET, before), arrivals) && OnlyArrivals(arrivals) && n <= 256
    ensures Parts(After(QUIET, before), arrivals, n) <= 10 * n
  {
    hide After;
    hide IsRun;
    hide Part;
    if n > 0 {
      PartsAreFew(before, arrivals, n - 1);
      OptionSettles(before, arrivals, Server, n - 1);
      OptionSettles(before, arrivals, Client, n - 1);
    }
  }

  /** Once requests stop, the whole wire falls silent: at most five commands for each of the 512 options. */
  lemma {:induction false} WireFallsSilent(before: seq<Act>, arrivals: seq<Act>)
    requires IsRun(QUIET, before) && IsRun(After(QUIET, before), arrivals) && OnlyArrivals(arrivals)
    ensures |arrivals| <= 5 * 512
  {
    RunSpeaks(QUIET, before);
    PartsAreAll(After(QUIET, before), arrivals);
    PartsAreFew(before, arrivals, 256);
    hide After;
    hide Parts;
  }

  /** A new negotiator that is asked to enable an option says WILL of its own side, DO of the peer's. */
  method FirstRequest(direction: Direction, option: byte) returns (n: Negotiator)
    ensures fresh(n) && n.Valid() && n.outbox == [Command(if direction.Local? then 251 else 253, option)]
  {
    n := new Negotiator();
    n.AskFor(direction, option, true);
    FirstCommands(option);
  }
}
