/** The ISAPI thread pool as a system of interleaved atomic steps.

  One completion port (`queue`) feeds the worker threads.  Each worker is a program counter into
  `WorkerThread.run` and `DispatchConnection`, its `running` flag and the token of its thread; the
  extension itself is a program counter into `GetExtensionVersion` and `TerminateExtension`.  A step
  executes one statement of one thread; `raises` says whether the call that statement makes raises. */
module PoolProtocol {
  import opened Counting
  import opened Wrappers

  datatype Request = Request(id: nat, user: nat)

  datatype Packet = Work(req: Request) | Shutdown

  /** Where a worker is: `Got` is the test of the packet just received, `Dispatching` the call of
      `Dispatch`, `Handling` the call of `HandleDispatchError`, `Resetting` the `finally` clause. */
  datatype Pc =
    | NotStarted
    | Testing
    | Waiting
    | Got(packet: Packet)
    | Impersonating(req: Request)
    | Dispatching(req: Request)
    | Handling(req: Request)
    | Resetting(req: Request, failed: bool)
    | Exited

  datatype Worker = Worker(pc: Pc, running: bool, token: Option<nat>)

  /** Where the extension is: starting the workers, serving, or one of the loops of
      `TerminateExtension`.  `Filtering` is the list comprehension that asks each worker `is_alive()`. */
  datatype Phase =
    | Starting
    | Serving
    | Clearing(next: nat)
    | Posting(next: nat)
    | Polling(alive: seq<nat>)
    | Filtering(rest: seq<nat>, kept: seq<nat>)
    | Emptying(timedOut: bool)
    | Closing(timedOut: bool)
    | Closed(timedOut: bool)

  /** One call of `Dispatch`: the request and the token of the thread at the moment of the call. */
  datatype Call = Call(req: Request, token: Option<nat>)

  datatype Pool = Pool(
    maxWorkers: nat,
    workers: seq<Worker>,
    queue: seq<Packet>,
    phase: Phase,
    mapped: bool,             // dispatch_map still holds its entry
    posted: seq<Request>,
    calls: seq<Call>,
    finished: seq<Request>,   // DispatchConnection was left after Dispatch
    refused: seq<Request>,    // impersonation raised, Dispatch was never called
    dropped: seq<Request>)    // no dispatcher was found

  datatype Step =
    | Post(user: nat)
    | Work(worker: nat, raises: bool)
    | Extension(timeout: bool)

  function Initial(maxWorkers: nat): Pool {
    Pool(maxWorkers, [], [], Starting, true, [], [], [], [], [])
  }

  predicate WorkerEnabled(p: Pool, w: nat) {
    && w < |p.workers|
    && p.workers[w].pc != Exited
    && (p.workers[w].pc == Waiting ==> p.queue != [] && !p.phase.Closed?)
  }

  predicate Enabled(p: Pool, s: Step) {
    match s
    case Post(_) => !p.phase.Closed?
    case Work(w, _) => WorkerEnabled(p, w)
    case Extension(_) => !p.phase.Closed?
  }

  function PostStep(p: Pool, user: nat): Pool {
    var req := Request(|p.posted|, user);
    p.(queue := p.queue + [Packet.Work(req)], posted := p.posted + [req])
  }

  function WorkerStep(p: Pool, w: nat, raises: bool): Pool
    requires WorkerEnabled(p, w)
  {
    var me := p.workers[w];
    match me.pc
    case NotStarted =>
      p.(workers := p.workers[w := me.(pc := Testing, running := true)])
    case Testing =>
      p.(workers := p.workers[w := me.(pc := if me.running then Waiting else Exited)])
    case Waiting =>
      p.(workers := p.workers[w := me.(pc := Got(p.queue[0]))], queue := p.queue[1..])
    case Got(Shutdown) =>
      p.(workers := p.workers[w := me.(pc := Exited)])
    case Got(Work(req)) =>
      if p.mapped then p.(workers := p.workers[w := me.(pc := Impersonating(req))])
      else p.(workers := p.workers[w := me.(pc := Exited)], dropped := p.dropped + [req])
    case Impersonating(req) =>
      if raises then p.(workers := p.workers[w := me.(pc := Exited)], refused := p.refused + [req])
      else p.(workers := p.workers[w := me.(pc := Dispatching(req), token := Some(req.user))])
    case Dispatching(req) =>
      p.(workers := p.workers[w := me.(pc := if raises then Handling(req) else Resetting(req, false))],
         calls := p.calls + [Call(req, me.token)])
    case Handling(req) =>
      p.(workers := p.workers[w := me.(pc := Resetting(req, raises))])
    case Resetting(req, failed) =>
      p.(workers := p.workers[w := if raises then me.(pc := Exited)
                                   else me.(pc := if failed then Exited else Testing, token := None)],
         finished := p.finished + [req])
  }

  function Everyone(n: nat): (all: seq<nat>) {
    seq(n, i requires 0 <= i < n => i)
  }

  predicate Alive(p: Pool, w: nat) {
    w < |p.workers| && p.workers[w].pc != Exited
  }

  function ExtensionStep(p: Pool, timeout: bool): Pool
    requires !p.phase.Closed?
  {
    match p.phase
    case Starting =>
      if |p.workers| < p.maxWorkers then p.(workers := p.workers + [Worker(NotStarted, false, None)])
      else p.(phase := Serving)
    case Serving => p.(phase := Clearing(0))
    case Clearing(i) =>
      if i < |p.workers| then
        p.(workers := p.workers[i := p.workers[i].(running := false)], phase := Clearing(i + 1))
      else p.(phase := Posting(0))
    case Posting(i) =>
      if i < |p.workers| then p.(queue := p.queue + [Shutdown], phase := Posting(i + 1))
      else p.(phase := Polling(Everyone(|p.workers|)))
    case Polling(alive) =>
      p.(phase := if alive == [] then Emptying(false) else if timeout then Emptying(true)
                  else Filtering(alive, []))
    case Filtering(rest, kept) =>
      p.(phase := if rest == [] then Polling(kept)
                  else Filtering(rest[1..], if Alive(p, rest[0]) then kept + [rest[0]] else kept))
    case Emptying(t) => p.(mapped := false, phase := Closing(t))
    case Closing(t) => p.(phase := Closed(t))
  }

  function Next(p: Pool, s: Step): Pool
    requires Enabled(p, s)
  {
    match s
    case Post(user) => PostStep(p, user)
    case Work(w, raises) => WorkerStep(p, w, raises)
    case Extension(timeout) => ExtensionStep(p, timeout)
  }

  predicate Legal(p: Pool, steps: seq<Step>)
    decreases |steps|
  {
    steps == [] || (Enabled(p, steps[0]) && Legal(Next(p, steps[0]), steps[1..]))
  }

  /** The state that a schedule of steps leads to. */
  function Run(p: Pool, steps: seq<Step>): Pool
    requires Legal(p, steps)
    decreases |steps|
  {
    if steps == [] then p else Run(Next(p, steps[0]), steps[1..])
  }

  ghost predicate Leads(p: Pool, steps: seq<Step>, q: Pool) {
    Legal(p, steps) && Run(p, steps) == q
  }

  lemma {:induction false} LeadsConcat(p: Pool, first: seq<Step>, q: Pool, second: seq<Step>, r: Pool)
    requires Leads(p, first, q) && Leads(q, second, r)
    ensures Leads(p, first + second, r)
    decreases |first|
  {
    if first == [] {
      assert first + second == second;
    } else {
      LeadsConcat(Next(p, first[0]), first[1..], q, second, r);
      assert (first + second)[1..] == first[1..] + second;
    }
  }

  lemma LeadsOn(p: Pool, steps: seq<Step>, q: Pool, s: Step)
    requires Leads(p, steps, q) && Enabled(q, s)
    ensures Leads(p, steps + [s], Next(q, s))
  {
    assert [s][1..] == [];
    assert Legal(Next(q, s), []);
    assert Leads(q, [s], Next(q, s));
    LeadsConcat(p, steps, q, [s], Next(q, s));
  }

  /* ---- What is counted ---- */

  /** A worker that has taken `req` from the port and not yet called `Dispatch` for it. */
  function HoldsEarly(req: Request): Worker -> bool {
    (w: Worker) => w.pc == Got(Packet.Work(req)) || w.pc == Impersonating(req) || w.pc == Dispatching(req)
  }

  /** A worker that has called `Dispatch` for `req` and not yet left `DispatchConnection`. */
  function HoldsLate(req: Request): Worker -> bool {
    (w: Worker) => (w.pc.Handling? || w.pc.Resetting?) && w.pc.req == req
  }

  /** A worker that still has to be told to stop: it has neither exited nor received a shutdown packet. */
  function Owed(): Worker -> bool {
    (w: Worker) => w.pc != Exited && w.pc != Got(Shutdown)
  }

  function CallFor(req: Request): Call -> bool {
    (c: Call) => c.req == req
  }

  /** The workers that are owed a shutdown packet. */
  function Outstanding(p: Pool): nat {
    Count(p.workers, Owed())
  }

  /** The shutdown packets waiting at the port. */
  function Shutdowns(p: Pool): nat {
    Count(p.queue, Is(Shutdown))
  }

  function Queued(p: Pool, req: Request): nat {
    Count(p.queue, Is(Packet.Work(req)))
  }

  /** The workers that hold `req`. */
  function Held(p: Pool, req: Request): nat {
    Count(p.workers, HoldsEarly(req)) + Count(p.workers, HoldsLate(req))
  }

  function Dispatched(p: Pool, req: Request): nat {
    Count(p.calls, CallFor(req))
  }

  /** The shutdown packets the posting loop has sent so far. */
  function Sent(p: Pool): nat {
    match p.phase
    case Starting => 0
    case Serving => 0
    case Clearing(_) => 0
    case Posting(i) => i
    case _ => |p.workers|
  }

  /* ---- The invariant ---- */

  /** A thread runs under a user's token exactly from the `SetThreadToken` of line 123 to the one of
      line 131; nothing is said of a thread that has died. */
  ghost predicate TokenFollowsRequest(w: Worker) {
    match w.pc
    case Dispatching(req) => w.token == Some(req.user)
    case Handling(req) => w.token == Some(req.user)
    case Resetting(req, _) => w.token == Some(req.user)
    case Exited => true
    case _ => w.token == None
  }

  ghost predicate EveryOtherExited(p: Pool, alive: seq<nat>) {
    forall w: nat | w < |p.workers| && w !in alive :: p.workers[w].pc == Exited
  }

  ghost predicate PhaseInvariant(p: Pool) {
    && |p.workers| <= p.maxWorkers
    && (!p.phase.Starting? ==> |p.workers| == p.maxWorkers)
    && (p.mapped <==> !p.phase.Closing? && !p.phase.Closed?)
    && (p.mapped ==> p.dropped == [])
    && match p.phase
       case Clearing(i) => i <= |p.workers|
       case Posting(i) => i <= |p.workers|
       case Polling(alive) => EveryOtherExited(p, alive)
       case Filtering(rest, kept) => EveryOtherExited(p, rest + kept)
       case Emptying(timedOut) => timedOut || EveryOtherExited(p, [])
       case Closing(timedOut) => timedOut || EveryOtherExited(p, [])
       case Closed(timedOut) => timedOut || EveryOtherExited(p, [])
       case _ => true
  }

  ghost predicate ShutdownInvariant(p: Pool) {
    && Shutdowns(p) <= Sent(p) <= |p.workers|
    && Shutdowns(p) + |p.workers| >= Sent(p) + Outstanding(p)
    && forall i | 0 <= i < |p.workers| && p.workers[i].pc == Got(Shutdown) :: Sent(p) > 0
  }

  ghost predicate TokenInvariant(p: Pool) {
    && (forall i | 0 <= i < |p.workers| :: TokenFollowsRequest(p.workers[i]))
    && (forall call | call in p.calls :: call.token == Some(call.req.user))
  }

  /** `req` is in as many places as it was posted times, and has been dispatched as often as it has
      reached `Dispatch`. */
  ghost predicate Conserved(p: Pool, req: Request) {
    && Count(p.posted, Is(req)) == Queued(p, req) + Held(p, req)
         + Count(p.finished, Is(req)) + Count(p.refused, Is(req)) + Count(p.dropped, Is(req))
    && Dispatched(p, req) == Count(p.workers, HoldsLate(req)) + Count(p.finished, Is(req))
  }

  ghost predicate RequestInvariant(p: Pool) {
    && (forall i | 0 <= i < |p.posted| :: p.posted[i].id == i)
    && (forall req :: Conserved(p, req))
  }

  ghost predicate Inv(p: Pool) {
    PhaseInvariant(p) && ShutdownInvariant(p) && TokenInvariant(p) && RequestInvariant(p)
  }

  lemma InitialInv(maxWorkers: nat)
    ensures Inv(Initial(maxWorkers))
  {
  }

  lemma {:induction false} NextKeepsPhase(p: Pool, s: Step)
    requires PhaseInvariant(p) && Enabled(p, s)
    ensures PhaseInvariant(Next(p, s))
  {
    var q := Next(p, s);
    if s.Extension? && p.phase.Filtering? {
      FilterKeepsPhase(p);
    } else if s.Extension? && p.phase.Posting? && p.phase.next == |p.workers| {
      forall w: nat | w < |q.workers| ensures w in q.phase.alive {
        assert q.phase.alive[w] == w;
      }
    }
  }

  lemma {:induction false} FilterKeepsPhase(p: Pool)
    requires PhaseInvariant(p) && p.phase.Filtering?
    ensures PhaseInvariant(ExtensionStep(p, false))
  {
    var Filtering(rest, kept) := p.phase;
    var q := ExtensionStep(p, false);
    if rest == [] {
      assert rest + kept == kept;
    } else {
      forall w: nat | w < |q.workers| && w !in q.phase.rest + q.phase.kept
        ensures q.workers[w].pc == Exited
      {
        if w != rest[0] {
          assert w !in rest;
          assert w !in kept;
        }
      }
    }
  }

  lemma {:induction false} ReceivingKeepsShutdowns(p: Pool, w: nat)
    requires ShutdownInvariant(p) && WorkerEnabled(p, w) && p.workers[w].pc == Waiting
    ensures ShutdownInvariant(WorkerStep(p, w, false))
  {
    var q := WorkerStep(p, w, false);
    CountUpdate(p.workers, w, q.workers[w], Owed());
    assert Shutdowns(p) == Unit(p.queue[0] == Shutdown) + Shutdowns(q);
  }

  lemma {:induction false} WorkKeepsShutdowns(p: Pool, w: nat, raises: bool)
    requires ShutdownInvariant(p) && WorkerEnabled(p, w)
    ensures ShutdownInvariant(WorkerStep(p, w, raises))
  {
    if p.workers[w].pc == Waiting {
      ReceivingKeepsShutdowns(p, w);
    } else {
      var q := WorkerStep(p, w, raises);
      assert q.queue == p.queue && q.phase == p.phase && q.workers == p.workers[w := q.workers[w]];
      assert Owed()(q.workers[w]) ==> Owed()(p.workers[w]);
      CountUpdate(p.workers, w, q.workers[w], Owed());
    }
  }

  lemma {:induction false} ExtensionKeepsShutdowns(p: Pool, timeout: bool)
    requires PhaseInvariant(p) && ShutdownInvariant(p) && !p.phase.Closed?
    ensures ShutdownInvariant(ExtensionStep(p, timeout))
  {
    var q := ExtensionStep(p, timeout);
    match p.phase
    case Starting => CountAppend(p.workers, Worker(NotStarted, false, None), Owed());
    case Clearing(i) => if i < |p.workers| { CountUpdate(p.workers, i, q.workers[i], Owed()); }
    case Posting(i) => CountAppend(p.queue, Shutdown, Is(Shutdown));
    case _ =>
  }

  lemma {:induction false} NextKeepsShutdowns(p: Pool, s: Step)
    requires PhaseInvariant(p) && ShutdownInvariant(p) && Enabled(p, s)
    ensures ShutdownInvariant(Next(p, s))
  {
    match s
    case Post(user) => CountAppend(p.queue, Packet.Work(Request(|p.posted|, user)), Is(Shutdown));
    case Work(w, raises) => WorkKeepsShutdowns(p, w, raises);
    case Extension(timeout) => ExtensionKeepsShutdowns(p, timeout);
  }

  lemma {:induction false} WorkKeepsTokens(p: Pool, w: nat, raises: bool)
    requires TokenInvariant(p) && WorkerEnabled(p, w)
    ensures TokenInvariant(WorkerStep(p, w, raises))
  {
    var q := WorkerStep(p, w, raises);
    assert TokenFollowsRequest(p.workers[w]);
    assert TokenFollowsRequest(q.workers[w]);
    assert q.workers == p.workers[w := q.workers[w]];
  }

  lemma {:induction false} NextKeepsTokens(p: Pool, s: Step)
    requires TokenInvariant(p) && Enabled(p, s)
    ensures TokenInvariant(Next(p, s))
  {
    if s.Work? {
      WorkKeepsTokens(p, s.worker, s.raises);
    }
  }

  /** What replacing worker `w` does to the number of workers holding `req`. */
  lemma HeldAfterUpdate(p: Pool, w: nat, x: Worker, req: Request)
    requires w < |p.workers|
    ensures Count(p.workers[w := x], HoldsEarly(req)) + Unit(HoldsEarly(req)(p.workers[w]))
         == Count(p.workers, HoldsEarly(req)) + Unit(HoldsEarly(req)(x))
    ensures Count(p.workers[w := x], HoldsLate(req)) + Unit(HoldsLate(req)(p.workers[w]))
         == Count(p.workers, HoldsLate(req)) + Unit(HoldsLate(req)(x))
  {
    CountUpdate(p.workers, w, x, HoldsEarly(req));
    CountUpdate(p.workers, w, x, HoldsLate(req));
  }

  /** A worker that stops or looks up its dispatcher still holds what it held. */
  lemma LookupHolds(p: Pool, w: nat, raises: bool, req: Request)
    requires Conserved(p, req) && WorkerEnabled(p, w) && p.workers[w].pc.Got?
    requires p.workers[w].pc.packet == Shutdown || p.mapped
    ensures Conserved(WorkerStep(p, w, raises), req)
  {
    HeldAfterUpdate(p, w, WorkerStep(p, w, raises).workers[w], req);
  }

  /** A request without a dispatcher is dropped. */
  lemma LookupDrops(p: Pool, w: nat, raises: bool, req: Request)
    requires Conserved(p, req) && WorkerEnabled(p, w) && p.workers[w].pc.Got?
    requires p.workers[w].pc.packet.Work? && !p.mapped
    ensures Conserved(WorkerStep(p, w, raises), req)
  {
    var dropped := p.workers[w].pc.packet.req;
    HeldAfterUpdate(p, w, WorkerStep(p, w, raises).workers[w], req);
    CountAppend(p.dropped, dropped, Is(req));
    assert Is(req)(dropped) == HoldsEarly(req)(p.workers[w]);
  }

  lemma LookupKeepsRequest(p: Pool, w: nat, raises: bool, req: Request)
    requires Conserved(p, req) && WorkerEnabled(p, w) && p.workers[w].pc.Got?
    ensures Conserved(WorkerStep(p, w, raises), req)
  {
    if p.workers[w].pc.packet == Shutdown || p.mapped {
      LookupHolds(p, w, raises, req);
    } else {
      LookupDrops(p, w, raises, req);
    }
  }

  /** Getting and setting the token: a request whose user cannot be had is refused. */
  lemma ImpersonationKeepsRequest(p: Pool, w: nat, raises: bool, req: Request)
    requires Conserved(p, req) && WorkerEnabled(p, w) && p.workers[w].pc.Impersonating?
    ensures Conserved(WorkerStep(p, w, raises), req)
  {
    HeldAfterUpdate(p, w, WorkerStep(p, w, raises).workers[w], req);
    CountAppend(p.refused, p.workers[w].pc.req, Is(req));
  }

  lemma DispatchKeepsRequest(p: Pool, w: nat, raises: bool, req: Request)
    requires Conserved(p, req) && WorkerEnabled(p, w) && p.workers[w].pc.Dispatching?
    ensures Conserved(WorkerStep(p, w, raises), req)
  {
    HeldAfterUpdate(p, w, WorkerStep(p, w, raises).workers[w], req);
    CountAppend(p.calls, Call(p.workers[w].pc.req, p.workers[w].token), CallFor(req));
  }

  lemma HandlingKeepsRequest(p: Pool, w: nat, raises: bool, req: Request)
    requires Conserved(p, req) && WorkerEnabled(p, w) && p.workers[w].pc.Handling?
    ensures Conserved(WorkerStep(p, w, raises), req)
  {
    HeldAfterUpdate(p, w, WorkerStep(p, w, raises).workers[w], req);
  }

  /** The `finally` clause: the request is finished, whatever came before. */
  lemma ResettingKeepsRequest(p: Pool, w: nat, raises: bool, req: Request)
    requires Conserved(p, req) && WorkerEnabled(p, w) && p.workers[w].pc.Resetting?
    ensures Conserved(WorkerStep(p, w, raises), req)
  {
    HeldAfterUpdate(p, w, WorkerStep(p, w, raises).workers[w], req);
    CountAppend(p.finished, p.workers[w].pc.req, Is(req));
  }

  lemma {:induction false} LoopWorkKeepsRequest(p: Pool, w: nat, raises: bool, req: Request)
    requires Conserved(p, req) && WorkerEnabled(p, w)
    requires p.workers[w].pc in {NotStarted, Testing, Waiting}
    ensures Conserved(WorkerStep(p, w, raises), req)
  {
    HeldAfterUpdate(p, w, WorkerStep(p, w, raises).workers[w], req);
  }

  lemma {:induction false} StartingKeepsRequest(p: Pool, idle: Worker, req: Request)
    requires Conserved(p, req) && idle.pc == NotStarted
    ensures Conserved(p.(workers := p.workers + [idle]), req)
  {
    CountAppend(p.workers, idle, HoldsEarly(req));
    CountAppend(p.workers, idle, HoldsLate(req));
  }

  lemma {:induction false} ClearingKeepsRequest(p: Pool, i: nat, req: Request)
    requires Conserved(p, req) && i < |p.workers|
    ensures Conserved(p.(workers := p.workers[i := p.workers[i].(running := false)]), req)
  {
    HeldAfterUpdate(p, i, p.workers[i].(running := false), req);
  }

  /** The phase and the dispatch map take no part in the conservation of requests. */
  lemma PhaseIsIrrelevant(p: Pool, q: Pool, req: Request)
    requires Conserved(p, req) && q == p.(phase := q.phase, mapped := q.mapped)
    ensures Conserved(q, req)
  {
  }

  lemma {:induction false} ExtensionKeepsRequest(p: Pool, timeout: bool, req: Request)
    requires Conserved(p, req) && !p.phase.Closed?
    ensures Conserved(ExtensionStep(p, timeout), req)
  {
    var q := ExtensionStep(p, timeout);
    if p.phase.Starting? && |p.workers| < p.maxWorkers {
      StartingKeepsRequest(p, Worker(NotStarted, false, None), req);
    } else if p.phase.Clearing? && p.phase.next < |p.workers| {
      ClearingKeepsRequest(p, p.phase.next, req);
      PhaseIsIrrelevant(p.(workers := q.workers), q, req);
    } else if p.phase.Posting? && p.phase.next < |p.workers| {
      CountAppend(p.queue, Shutdown, Is(Packet.Work(req)));
    } else {
      assert q == p.(phase := q.phase, mapped := q.mapped);
      PhaseIsIrrelevant(p, q, req);
    }
  }

  lemma {:induction false} NextKeepsRequest(p: Pool, s: Step, req: Request)
    requires Conserved(p, req) && Enabled(p, s)
    ensures Conserved(Next(p, s), req)
  {
    match s
    case Post(user) =>
      CountAppend(p.queue, Packet.Work(Request(|p.posted|, user)), Is(Packet.Work(req)));
      CountAppend(p.posted, Request(|p.posted|, user), Is(req));
    case Work(w, raises) =>
      match p.workers[w].pc {
        case Got(_) => LookupKeepsRequest(p, w, raises, req);
        case Impersonating(_) => ImpersonationKeepsRequest(p, w, raises, req);
        case Dispatching(_) => DispatchKeepsRequest(p, w, raises, req);
        case Handling(_) => HandlingKeepsRequest(p, w, raises, req);
        case Resetting(_, _) => ResettingKeepsRequest(p, w, raises, req);
        case _ => LoopWorkKeepsRequest(p, w, raises, req);
      }
    case Extension(timeout) => ExtensionKeepsRequest(p, timeout, req);
  }

  lemma {:induction false} NextKeepsRequests(p: Pool, s: Step)
    requires RequestInvariant(p) && Enabled(p, s)
    ensures RequestInvariant(Next(p, s))
  {
    forall req ensures Conserved(Next(p, s), req) {
      NextKeepsRequest(p, s, req);
    }
  }

  lemma NextKeepsInv(p: Pool, s: Step)
    requires Inv(p) && Enabled(p, s)
    ensures Inv(Next(p, s))
  {
    NextKeepsPhase(p, s);
    NextKeepsShutdowns(p, s);
    NextKeepsTokens(p, s);
    NextKeepsRequests(p, s);
  }

  lemma {:induction false} RunKeepsInv(p: Pool, steps: seq<Step>, q: Pool)
    requires Inv(p) && Leads(p, steps, q)
    ensures Inv(q)
    decreases |steps|
  {
    if steps != [] {
      NextKeepsInv(p, steps[0]);
      RunKeepsInv(Next(p, steps[0]), steps[1..], q);
    }
  }
}
