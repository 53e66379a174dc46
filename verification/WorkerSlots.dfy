/**
 * Connection slots of the server: one accepting thread reserves a slot, hands it to a new
 * worker or gives it back; workers release theirs; shutdown waits until none is left.
 */
module WorkerSlots {

  const MAX_ACTIVE := 64

  /** The counters that the runtime's mutex protects. */
  class Runtime {
    var active: nat
    var stopping: bool

    constructor ()
      ensures active == 0 && !stopping
    {
      active, stopping := 0, false;
    }

    method Reserve() returns (allowed: bool)
      modifies this
      ensures Counters(active, stopping) == Reserved(old(Counters(active, stopping)))
      ensures allowed <==> !old(stopping) && old(active) < 64
    {
      allowed := false;
      if !stopping && active < MAX_ACTIVE {
        active := active + 1;
        allowed := true;
      }
    }

    method Release()
      modifies this
      ensures Counters(active, stopping) == Released(old(Counters(active, stopping)))
    {
      if active > 0 {
        active := active - 1;
      }
    }

    method BeginShutdown()
      modifies this
      ensures active == old(active) && stopping
    {
      stopping := true;
    }
  }

  datatype Counters = Counters(active: nat, stopping: bool)

  predicate CanReserve(c: Counters) {
    !c.stopping && c.active < MAX_ACTIVE
  }

  function Reserved(c: Counters): Counters {
    if CanReserve(c) then c.(active := c.active + 1) else c
  }

  function Released(c: Counters): Counters {
    if c.active > 0 then c.(active := c.active - 1) else c
  }

  // ----- One worker -----

  datatype Transport = Ssh | Tls | Plain

  /** Where a worker thread is; each point is the next call that can fail or that gives something back. */
  datatype Point =
    | Begun(transport: Transport)
    | InSsh               // the SSH transport owns the socket until it returns
    | Attach              // SSL_set_fd
    | Handshake           // tls_accept_with_deadline
    | MakeSession         // telnet_session_create
    | Loop                // the read loop, left for any of its reasons
    | DropSession
    | DropTls
    | CloseSocket
    | GiveBack            // runtime_release_connection
    | Ended

  /** What the worker still has to give back. */
  datatype Worker = Worker(at: Point, session: bool, tls: bool, socket: bool, slot: bool)

  function Spawned(transport: Transport): Worker {
    Worker(Begun(transport), false, false, true, true)
  }

  /** The next point; `ok` is the outcome of the call there, or that the loop goes on. */
  function Advance(w: Worker, ok: bool): Worker {
    match w.at
    case Begun(Ssh) => w.(at := InSsh)
    case Begun(Tls) => if ok then w.(at := Attach, tls := true) else w.(at := DropSession)
    case Begun(Plain) => w.(at := MakeSession)
    case InSsh => w.(at := GiveBack, socket := false)
    case Attach => w.(at := if ok then Handshake else DropSession)
    case Handshake => w.(at := if ok then MakeSession else DropSession)
    case MakeSession => if ok then w.(at := Loop, session := true) else w.(at := DropSession)
    case Loop => if ok then w else w.(at := DropSession)
    case DropSession => w.(at := DropTls, session := false)
    case DropTls => w.(at := CloseSocket, tls := false)
    case CloseSocket => w.(at := GiveBack, socket := false)
    case GiveBack => w.(at := Ended, slot := false)
    case Ended => w
  }

  /** What a worker holds follows from where it is; at the end that is nothing. */
  predicate InHand(w: Worker) {
    && (w.slot <==> !w.at.Ended?)
    && (w.socket <==> !w.at.GiveBack? && !w.at.Ended?)
    && (w.session ==> w.at.Loop? || w.at.DropSession?) && (w.at.Loop? ==> w.session)
    && (w.tls ==> w.at.Attach? || w.at.Handshake? || w.at.MakeSession? || w.at.Loop? || w.at.DropSession? || w.at.DropTls?)
    && (w.at.Attach? || w.at.Handshake? ==> w.tls)
  }

  /** How far a worker is from its end at most, the loop aside. */
  function Distance(p: Point): nat {
    match p
    case Begun(_) => 9
    case Attach => 8
    case Handshake => 7
    case MakeSession => 6
    case Loop => 5
    case DropSession => 4
    case DropTls => 3
    case CloseSocket => 2
    case InSsh => 2
    case GiveBack => 1
    case Ended => 0
  }

  /** Every path gets nearer to the end with each call, except while the read loop goes on. */
  lemma {:induction false} WorkerGetsOn(w: Worker, ok: bool)
    requires InHand(w)
    ensures InHand(Advance(w, ok)) && (Advance(w, ok).slot <==> w.slot && !w.at.GiveBack?)
    ensures w.at.Ended? || (w.at.Loop? && ok) || Distance(Advance(w, ok).at) < Distance(w.at)
  {
  }

  // ----- The server -----

  /** Where the accepting thread is. From `Holding` to `Returning` it has a reservation but no worker yet. */
  datatype Acceptor =
    | Accepting
    | Accepted            // a connection, about to ask the abuse policy
    | Reserving
    | Holding             // reserved, about to allocate the worker's arguments
    | Creating            // about to start the thread
    | Returning           // either failed: about to release
    | Waiting
    | Returned

  predicate HasSlot(a: Acceptor) {
    a.Holding? || a.Creating? || a.Returning?
  }

  /** `workers` are all threads ever started, the ended ones included. */
  datatype Server = Server(counters: Counters, acceptor: Acceptor, workers: seq<Worker>)

  datatype Step =
    | Main(ok: bool, transport: Transport)   // the accepting thread's next call
    | Work(worker: nat, ok: bool)            // a worker's next call
    | Stop                                   // begin shutdown and start waiting
    | WaitOver                               // the wait finds no active connection

  predicate Possible(s: Server, step: Step) {
    match step
    case Main(_, _) => !s.acceptor.Waiting? && !s.acceptor.Returned?
    case Work(worker, _) => worker < |s.workers| && !s.workers[worker].at.Ended?
    case Stop => s.acceptor.Accepting?
    case WaitOver => s.acceptor.Waiting? && s.counters.active == 0
  }

  predicate Releases(s: Server, step: Step)
    requires Possible(s, step)
  {
    (step.Main? && s.acceptor.Returning?) || (step.Work? && s.workers[step.worker].at.GiveBack?)
  }

  function MainNext(s: Server, ok: bool, transport: Transport): Server {
    match s.acceptor
    case Accepting => s.(acceptor := if ok then Accepted else Accepting)
    case Accepted => s.(acceptor := if ok then Reserving else Accepting)
    case Reserving =>
      s.(counters := Reserved(s.counters), acceptor := if CanReserve(s.counters) then Holding else Accepting)
    case Holding => s.(acceptor := if ok then Creating else Returning)
    case Creating =>
      if ok then s.(acceptor := Accepting, workers := s.workers + [Spawned(transport)]) else s.(acceptor := Returning)
    case Returning => s.(counters := Released(s.counters), acceptor := Accepting)
    case _ => s
  }

  function Next(s: Server, step: Step): Server
    requires Possible(s, step)
  {
    match step
    case Main(ok, transport) => MainNext(s, ok, transport)
    case Work(i, ok) =>
      s.(workers := s.workers[i := Advance(s.workers[i], ok)],
         counters := if s.workers[i].at.GiveBack? then Released(s.counters) else s.counters)
    case Stop => s.(counters := s.counters.(stopping := true), acceptor := Waiting)
    case WaitOver => s.(acceptor := Returned)
  }

  const START := Server(Counters(0, false), Accepting, [])

  function Slots(workers: seq<Worker>): (n: nat)
    ensures n <= |workers|
  {
    if workers == [] then 0 else Slots(workers[..|workers| - 1]) + if workers[|workers| - 1].slot then 1 else 0
  }

  lemma {:induction false} SlotsUpdate(workers: seq<Worker>, i: nat, w: Worker)
    requires i < |workers|
    ensures Slots(workers[i := w]) == Slots(workers) - (if workers[i].slot then 1 else 0) + if w.slot then 1 else 0
  {
    var n := |workers| - 1;
    if i < n {
      assert workers[i := w][..n] == workers[..n][i := w];
      SlotsUpdate(workers[..n], i, w);
    } else {
      assert workers[i := w][..n] == workers[..n];
    }
  }

  lemma {:induction false} SlotsAppend(workers: seq<Worker>, w: Worker)
    ensures Slots(workers + [w]) == Slots(workers) + if w.slot then 1 else 0
  {
    assert (workers + [w])[..|workers|] == workers;
  }

  lemma {:induction false} NoSlots(workers: seq<Worker>, i: nat)
    requires Slots(workers) == 0 && i < |workers|
    ensures !workers[i].slot
  {
    if i < |workers| - 1 {
      NoSlots(workers[..|workers| - 1], i);
    }
  }

  lemma {:induction false} SomeSlot(workers: seq<Worker>, i: nat)
    requires i < |workers| && workers[i].slot
    ensures Slots(workers) > 0
  {
    if i < |workers| - 1 {
      SomeSlot(workers[..|workers| - 1], i);
    }
  }

  /** The counter is the number of reservations that someone has yet to release. */
  predicate Conserved(s: Server) {
    && s.counters.active == Slots(s.workers) + (if HasSlot(s.acceptor) then 1 else 0)
    && s.counters.active <= MAX_ACTIVE
    && (forall i :: 0 <= i < |s.workers| ==> InHand(s.workers[i]))
    && (s.acceptor.Waiting? || s.acceptor.Returned? ==> s.counters.stopping)
    && (s.acceptor.Returned? ==> Slots(s.workers) == 0)
  }

  lemma {:induction false} MainConserves(s: Server, ok: bool, transport: Transport)
    requires Conserved(s) && Possible(s, Main(ok, transport))
    ensures Conserved(MainNext(s, ok, transport))
  {
    SlotsAppend(s.workers, Spawned(transport));
    assert InHand(Spawned(transport));
    hide Slots;
    hide InHand;
    hide Spawned;
  }

  lemma {:induction false} WorkConserves(s: Server, i: nat, ok: bool)
    requires Conserved(s) && Possible(s, Work(i, ok))
    ensures Conserved(Next(s, Work(i, ok))) && s.counters.active > 0
  {
    var w := s.workers[i];
    assert w.slot && InHand(w);
    WorkerGetsOn(w, ok);
    SlotsUpdate(s.workers, i, Advance(w, ok));
    SomeSlot(s.workers, i);
    hide Slots;
    hide InHand;
    hide Advance;
    hide Distance;
  }

  lemma {:induction false} StepConserves(s: Server, step: Step)
    requires Conserved(s) && Possible(s, step)
    ensures Conserved(Next(s, step))
    ensures Releases(s, step) ==> s.counters.active > 0
  {
    hide Slots;
    hide InHand;
    hide Advance;
    match step
    case Main(ok, transport) => MainConserves(s, ok, transport);
    case Work(i, ok) => WorkConserves(s, i, ok);
    case _ =>
    hide MainNext;
  }

  predicate IsRun(s: Server, steps: seq<Step>)
    decreases steps
  {
    steps == [] || (Possible(s, steps[0]) && IsRun(Next(s, steps[0]), steps[1..]))
  }

  function After(s: Server, steps: seq<Step>): Server
    requires IsRun(s, steps)
    decreases steps
  {
    if steps == [] then s else After(Next(s, steps[0]), steps[1..])
  }

  /** No step of the run releases a slot when the counter is already zero. */
  predicate NeverReleasesAtZero(s: Server, steps: seq<Step>)
    requires IsRun(s, steps)
    decreases steps
  {
    steps == [] ||
    ((Releases(s, steps[0]) ==> s.counters.active > 0) && NeverReleasesAtZero(Next(s, steps[0]), steps[1..]))
  }

  lemma {:induction false} RunConserves(s: Server, steps: seq<Step>)
    requires Conserved(s) && IsRun(s, steps)
    ensures Conserved(After(s, steps)) && NeverReleasesAtZero(s, steps)
    decreases steps
  {
    hide Conserved;
    hide Next;
    hide Releases;
    if steps != [] {
      StepConserves(s, steps[0]);
      RunConserves(Next(s, steps[0]), steps[1..]);
    }
  }

  /** How often the worker releases in the course of the run. */
  function ReleasesOf(s: Server, steps: seq<Step>, worker: nat): nat
    requires IsRun(s, steps)
    decreases steps
  {
    if steps == [] then 0
    else (if steps[0].Work? && steps[0].worker == worker && Releases(s, steps[0]) then 1 else 0)
         + ReleasesOf(Next(s, steps[0]), steps[1..], worker)
  }

  predicate Over(s: Server, worker: nat) {
    worker < |s.workers| && s.workers[worker].at.Ended?
  }

  lemma {:induction false} ReleasesAlongRun(s: Server, steps: seq<Step>, worker: nat)
    requires IsRun(s, steps)
    ensures ReleasesOf(s, steps, worker) == if Over(After(s, steps), worker) && !Over(s, worker) then 1 else 0
    ensures Over(s, worker) ==> Over(After(s, steps), worker)
    decreases steps
  {
    if steps != [] {
      OverStep(s, steps[0], worker);
      hide Next;
      hide Releases;
      hide Over;
      ReleasesAlongRun(Next(s, steps[0]), steps[1..], worker);
    }
  }

  lemma {:induction false} OverStep(s: Server, step: Step, worker: nat)
    requires Possible(s, step)
    ensures var s' := Next(s, step);
            && (Over(s, worker) ==> Over(s', worker))
            && (Over(s', worker) && !Over(s, worker) <==> step.Work? && step.worker == worker && Releases(s, step))
  {
  }

  /**
   * In every run of the server, whatever fails and in whatever order the threads go on: the
   * counter is the number of reservations yet to be released and at most 64, no release
   * finds it at zero, and a worker has released exactly once if it has ended and never
   * before, having given back its socket, session and TLS state. Once the wait has returned
   * every worker has ended, and nothing more happens.
   */
  lemma {:induction false} SlotsAreConserved(steps: seq<Step>, more: seq<Step>, worker: nat)
    requires IsRun(START, steps) && IsRun(After(START, steps), more)
    ensures var s := After(START, steps);
            && s.counters.active == Slots(s.workers) + (if HasSlot(s.acceptor) then 1 else 0) <= 64
            && NeverReleasesAtZero(START, steps)
            && ReleasesOf(START, steps, worker) == (if Over(s, worker) then 1 else 0)
            && (Over(s, worker) ==>
                  var w := s.workers[worker]; !w.slot && !w.socket && !w.session && !w.tls)
            && (s.acceptor.Returned? ==> more == [] && (worker < |s.workers| ==> Over(s, worker)))
  {
    RunConserves(START, steps);
    ReleasesAlongRun(START, steps, worker);
    var s := After(START, steps);
    hide After;
    if s.acceptor.Returned? {
      AllOver(s);
    }
    hide Next;
    hide NeverReleasesAtZero;
    hide ReleasesOf;
  }

  lemma {:induction false} AllOver(s: Server)
    requires Conserved(s) && s.acceptor.Returned?
    ensures forall i :: 0 <= i < |s.workers| ==> s.workers[i].at.Ended?
    ensures forall step: Step :: !Possible(s, step)
  {
    forall i | 0 <= i < |s.workers| ensures s.workers[i].at.Ended? {
      NoSlots(s.workers, i);
    }
    hide Slots;
  }

  /** Shutdown can finish exactly when every worker has ended. */
  lemma {:induction false} WaitEndsWithTheLast(steps: seq<Step>)
    requires IsRun(START, steps) && After(START, steps).acceptor.Waiting?
    ensures var s := After(START, steps);
            Possible(s, WaitOver) <==> forall i :: 0 <= i < |s.workers| ==> s.workers[i].at.Ended?
  {
    RunConserves(START, steps);
    var s := After(START, steps);
    hide After;
    if s.counters.active == 0 {
      forall i | 0 <= i < |s.workers| ensures s.workers[i].at.Ended? {
        NoSlots(s.workers, i);
      }
    } else {
      var i := Holder(s.workers);
      assert InHand(s.workers[i]);
    }
    hide Slots;
  }

  lemma {:induction false} Holder(workers: seq<Worker>) returns (i: nat)
    requires Slots(workers) > 0
    ensures i < |workers| && workers[i].slot
  {
    var n := |workers| - 1;
    if workers[n].slot {
      i := n;
    } else {
      i := Holder(workers[..n]);
    }
  }

  /** A reservation succeeds exactly while fewer than 64 workers hold a slot. */
  lemma {:induction false} ReservedIffBelowLimit(steps: seq<Step>, ok: bool, transport: Transport)
    requires IsRun(START, steps) && After(START, steps).acceptor.Reserving?
    ensures var s := After(START, steps);
            Next(s, Main(ok, transport)).acceptor.Holding? <==> Slots(s.workers) < 64
  {
    RunConserves(START, steps);
    RunningUntilStopped(START, steps);
    hide After;
    hide Slots;
  }

  lemma {:induction false} RunningUntilStopped(s: Server, steps: seq<Step>)
    requires IsRun(s, steps) && (s.counters.stopping ==> s.acceptor.Waiting? || s.acceptor.Returned?)
    ensures var r := After(s, steps); r.counters.stopping ==> r.acceptor.Waiting? || r.acceptor.Returned?
    decreases steps
  {
    if steps != [] {
      RunningUntilStopped(Next(s, steps[0]), steps[1..]);
    }
  }

  /** How many connections the abuse policy let in. */
  function Admissions(s: Server, steps: seq<Step>): nat
    requires IsRun(s, steps)
    decreases steps
  {
    if steps == [] then 0
    else (if steps[0].Main? && s.acceptor.Accepted? && steps[0].ok then 1 else 0) + Admissions(Next(s, steps[0]), steps[1..])
  }

  predicate Pending(a: Acceptor) {
    a.Reserving? || HasSlot(a)
  }

  lemma {:induction false} WorkersAreAdmitted(s: Server, steps: seq<Step>)
    requires IsRun(s, steps)
    ensures var r := After(s, steps);
            |r.workers| + (if Pending(r.acceptor) then 1 else 0) <=
              |s.workers| + (if Pending(s.acceptor) then 1 else 0) + Admissions(s, steps)
    decreases steps
  {
    if steps != [] {
      WorkersAreAdmitted(Next(s, steps[0]), steps[1..]);
    }
  }

  /** No worker is started for a connection that the abuse policy refused. */
  lemma {:induction false} EveryWorkerWasAdmitted(steps: seq<Step>)
    requires IsRun(START, steps)
    ensures |After(START, steps).workers| <= Admissions(START, steps)
  {
    WorkersAreAdmitted(START, steps);
    hide After;
    hide Admissions;
  }
}
