/** What keeps the pool going: exactly what ends a worker, that every posted request is served while anyone is
    left to serve it, in which order requests are received, and what the flags and the clock of
    `TerminateExtension` do. */
module PoolProgress {
  import opened Counting
  import opened PoolProtocol
  import opened PoolTheorems

  /* ---- What ends a worker ---- */

  /** The worker has left `run`, or will as soon as the `finally` clause is over. */
  predicate Doomed(p: Pool, w: nat) {
    w < |p.workers| && (p.workers[w].pc == Exited || (p.workers[w].pc.Resetting? && p.workers[w].pc.failed))
  }

  /** One of the calls outside the inner `try` raises: getting the token, `HandleDispatchError`, resetting the
      token. `Dispatch` itself may raise. */
  predicate Fatal(p: Pool, s: Step, w: nat) {
    && s == Step.Work(w, true) && w < |p.workers|
    && (p.workers[w].pc.Impersonating? || p.workers[w].pc.Handling? || p.workers[w].pc.Resetting?)
  }

  /** The worker is told to stop: by a shutdown packet, by its flag, or by a request for which the emptied map
      has no dispatcher. */
  predicate Told(p: Pool, s: Step, w: nat) {
    && s.Work? && s.worker == w < |p.workers|
    && (var me := p.workers[w];
        || me.pc == Got(Shutdown)
        || (me.pc == Testing && !me.running)
        || (me.pc.Got? && me.pc.packet.Work? && !p.mapped))
  }

  predicate EverEnded(p: Pool, steps: seq<Step>, w: nat)
    requires Legal(p, steps)
    decreases |steps|
  {
    steps != []
    && (Fatal(p, steps[0], w) || Told(p, steps[0], w) || EverEnded(Next(p, steps[0]), steps[1..], w))
  }

  predicate EverFatal(p: Pool, steps: seq<Step>, w: nat)
    requires Legal(p, steps)
    decreases |steps|
  {
    steps != [] && (Fatal(p, steps[0], w) || EverFatal(Next(p, steps[0]), steps[1..], w))
  }

  lemma StepEndsIff(p: Pool, s: Step, w: nat)
    requires Enabled(p, s)
    ensures Doomed(Next(p, s), w) <==> Doomed(p, w) || Fatal(p, s, w) || Told(p, s, w)
  {
  }

  lemma {:induction false} RunEndsIff(p: Pool, steps: seq<Step>, w: nat)
    requires Legal(p, steps)
    ensures Doomed(Run(p, steps), w) <==> Doomed(p, w) || EverEnded(p, steps, w)
    decreases |steps|
  {
    if steps != [] {
      StepEndsIff(p, steps[0], w);
      RunEndsIff(Next(p, steps[0]), steps[1..], w);
    }
  }

  /** Over every run, in every phase: a worker is done for exactly if it was told to stop or one of its calls
      outside the inner `try` raised. */
  lemma WorkerEndsIff(maxWorkers: nat, steps: seq<Step>, p: Pool, w: nat)
    requires Reachable(maxWorkers, steps, p)
    ensures Doomed(p, w) <==> EverEnded(Initial(maxWorkers), steps, w)
  {
    RunEndsIff(Initial(maxWorkers), steps, w);
  }

  /* ---- Before termination ---- */

  predicate Before(p: Pool) {
    p.phase.Starting? || p.phase.Serving?
  }

  /** Nobody has been told to stop. */
  ghost predicate Untold(p: Pool) {
    && Before(p) && p.mapped && Shutdown !in p.queue
    && forall w: nat | w < |p.workers| ::
         p.workers[w].pc != Got(Shutdown) && (p.workers[w].pc != NotStarted ==> p.workers[w].running)
  }

  lemma NextKeepsUntold(p: Pool, s: Step)
    requires Untold(p) && Enabled(p, s) && Before(Next(p, s))
    ensures Untold(Next(p, s))
    ensures forall w: nat :: !Told(p, s, w)
  {
  }

  lemma {:induction false} NeverBefore(p: Pool, steps: seq<Step>)
    requires Legal(p, steps) && !Before(p)
    ensures !Before(Run(p, steps))
    decreases |steps|
  {
    if steps != [] {
      NeverBefore(Next(p, steps[0]), steps[1..]);
    }
  }

  lemma {:induction false} UntoldRun(p: Pool, steps: seq<Step>, w: nat)
    requires Legal(p, steps) && Untold(p) && Before(Run(p, steps))
    ensures Untold(Run(p, steps))
    ensures EverEnded(p, steps, w) <==> EverFatal(p, steps, w)
    decreases |steps|
  {
    if steps != [] {
      var q := Next(p, steps[0]);
      if !Before(q) {
        NeverBefore(q, steps[1..]);
      }
      NextKeepsUntold(p, steps[0]);
      UntoldRun(q, steps[1..], w);
    }
  }

  /** Until termination begins a worker goes on serving, whatever `Dispatch` raises: it is done for exactly if
      one of its calls outside the inner `try` raised. */
  lemma WorkerLivesIff(maxWorkers: nat, steps: seq<Step>, p: Pool, w: nat)
    requires Reachable(maxWorkers, steps, p) && Before(p)
    ensures Doomed(p, w) <==> EverFatal(Initial(maxWorkers), steps, w)
    ensures w < |p.workers| && !Doomed(p, w) && !WorkerEnabled(p, w) ==> p.workers[w].pc == Waiting && p.queue == []
  {
    UntoldRun(Initial(maxWorkers), steps, w);
    WorkerEndsIff(maxWorkers, steps, p, w);
  }

  lemma {:induction false} RunKeepsSize(p: Pool, steps: seq<Step>)
    requires Legal(p, steps)
    ensures Run(p, steps).maxWorkers == p.maxWorkers
    decreases |steps|
  {
    if steps != [] {
      RunKeepsSize(Next(p, steps[0]), steps[1..]);
    }
  }

  lemma NobodyHolds(p: Pool, req: Request)
    requires forall w | w in p.workers :: w.pc == Exited || w.pc == Waiting
    ensures Held(p, req) == 0
  {
    CountZero(p.workers, HoldsEarly(req));
    CountZero(p.workers, HoldsLate(req));
  }

  /** While serving, the pool only comes to rest with every request answered, unless no worker is left: if no
      worker can move and one of them has had no fatal call, the port is empty and each posted request was
      either dispatched to its end or refused for want of a token. */
  lemma RestMeansServed(maxWorkers: nat, steps: seq<Step>, p: Pool, w: nat, i: nat)
    requires Reachable(maxWorkers, steps, p) && p.phase == Serving && w < maxWorkers
    requires (forall v: nat :: !WorkerEnabled(p, v)) && !EverFatal(Initial(maxWorkers), steps, w)
    requires i < |p.posted|
    ensures p.queue == []
    ensures Count(p.finished, Is(p.posted[i])) + Count(p.refused, Is(p.posted[i])) == 1
  {
    ReachableInv(maxWorkers, steps, p);
    RunKeepsSize(Initial(maxWorkers), steps);
    WorkerLivesIff(maxWorkers, steps, p, w);
    assert !WorkerEnabled(p, w);
    forall v | v in p.workers ensures v.pc == Exited || v.pc == Waiting {
      var k: nat :| k < |p.workers| && p.workers[k] == v;
      assert !WorkerEnabled(p, k);
    }
    NobodyHolds(p, p.posted[i]);
    RequestsAreConserved(maxWorkers, steps, p, i);
  }

  /** No call of a worker raises. */
  predicate Smooth(steps: seq<Step>) {
    forall s | s in steps && s.Work? :: !s.raises
  }

  lemma {:induction false} SmoothRefusesNothing(p: Pool, steps: seq<Step>, w: nat)
    requires Legal(p, steps) && Smooth(steps)
    ensures Run(p, steps).refused == p.refused && !EverFatal(p, steps, w)
    decreases |steps|
  {
    if steps != [] {
      assert steps[0] in steps && forall s | s in steps[1..] :: s in steps;
      SmoothRefusesNothing(Next(p, steps[0]), steps[1..], w);
    }
  }

  /** If nothing raises, every posted request is dispatched to its end before the pool comes to rest. */
  lemma EveryRequestIsServed(maxWorkers: nat, steps: seq<Step>, p: Pool, i: nat)
    requires Reachable(maxWorkers, steps, p) && p.phase == Serving && maxWorkers > 0 && Smooth(steps)
    requires (forall v: nat :: !WorkerEnabled(p, v)) && i < |p.posted|
    ensures p.queue == [] && Count(p.finished, Is(p.posted[i])) == 1
  {
    SmoothRefusesNothing(Initial(maxWorkers), steps, 0);
    RestMeansServed(maxWorkers, steps, p, 0, i);
  }

  function Posts(steps: seq<Step>): nat {
    Count(steps, IsPost())
  }

  function IsPost(): Step -> bool {
    (s: Step) => s.Post?
  }

  /** And it does come to rest: between two statements of the extension the workers make at most seven steps
      for each request that is posted, beside those they had left. */
  lemma {:induction false} ServingIsBounded(p: Pool, steps: seq<Step>)
    requires Legal(p, steps) && forall s | s in steps :: !s.Extension?
    ensures WorkSteps(steps) + Remaining(Run(p, steps)) <= Remaining(p) + 7 * Posts(steps)
    decreases |steps|
  {
    if steps != [] {
      var q := Next(p, steps[0]);
      assert steps[0] in steps && forall s | s in steps[1..] :: s in steps;
      if steps[0].Work? {
        WorkDecreases(p, steps[0].worker, steps[0].raises);
      }
      ServingIsBounded(q, steps[1..]);
    }
  }

  /* ---- The order of packets ---- */

  /** The packet that a step puts to the port. */
  function PacketOf(p: Pool, s: Step): seq<Packet> {
    match s
    case Post(user) => [Packet.Work(Request(|p.posted|, user))]
    case Extension(_) => if p.phase.Posting? && p.phase.next < |p.workers| then [Shutdown] else []
    case Work(_, _) => []
  }

  function PacketsSent(p: Pool, steps: seq<Step>): seq<Packet>
    requires Legal(p, steps)
    decreases |steps|
  {
    if steps == [] then [] else PacketOf(p, steps[0]) + PacketsSent(Next(p, steps[0]), steps[1..])
  }

  /** The last elements of a sequence, in order. */
  ghost predicate EndsWith<T>(all: seq<T>, last: seq<T>) {
    |last| <= |all| && all[|all| - |last|..] == last
  }

  lemma EndsWithMore<T>(all: seq<T>, last: seq<T>, more: seq<T>)
    requires EndsWith(all, last)
    ensures EndsWith(all + more, last + more)
  {
    assert (all + more)[|all| - |last|..] == all[|all| - |last|..] + more;
  }

  lemma EndsWithTail<T>(all: seq<T>, last: seq<T>)
    requires EndsWith(all, last) && last != []
    ensures EndsWith(all, last[1..])
  {
  }

  lemma NextKeepsOrder(p: Pool, s: Step, sent: seq<Packet>)
    requires Enabled(p, s) && EndsWith(sent, p.queue)
    ensures EndsWith(sent + PacketOf(p, s), Next(p, s).queue)
  {
    if s.Work? && p.workers[s.worker].pc == Waiting {
      EndsWithTail(sent, p.queue);
      assert sent + [] == sent;
    } else {
      EndsWithMore(sent, p.queue, PacketOf(p, s));
      assert Next(p, s).queue == p.queue + PacketOf(p, s);
    }
  }

  lemma {:induction false} RunKeepsOrder(p: Pool, steps: seq<Step>, sent: seq<Packet>)
    requires Legal(p, steps) && EndsWith(sent, p.queue)
    ensures EndsWith(sent + PacketsSent(p, steps), Run(p, steps).queue)
    decreases |steps|
  {
    if steps == [] {
      assert sent + [] == sent;
    } else {
      NextKeepsOrder(p, steps[0], sent);
      RunKeepsOrder(Next(p, steps[0]), steps[1..], sent + PacketOf(p, steps[0]));
      assert sent + PacketOf(p, steps[0]) + PacketsSent(Next(p, steps[0]), steps[1..])
          == sent + (PacketOf(p, steps[0]) + PacketsSent(Next(p, steps[0]), steps[1..]));
    }
  }

  /** Packets are received in the order in which they were sent: what is at the port in a reachable state are the
      packets sent last, in order.  So a shutdown packet reaches a worker only when the requests posted before
      it have been received. */
  lemma PacketsLeaveInOrder(maxWorkers: nat, steps: seq<Step>, p: Pool)
    requires Reachable(maxWorkers, steps, p)
    ensures EndsWith(PacketsSent(Initial(maxWorkers), steps), p.queue)
  {
    RunKeepsOrder(Initial(maxWorkers), steps, []);
    assert [] + PacketsSent(Initial(maxWorkers), steps) == PacketsSent(Initial(maxWorkers), steps);
  }

  /** The users of the requests that a schedule posts. */
  function UsersPosted(steps: seq<Step>): seq<nat> {
    if steps == [] then [] else (if steps[0].Post? then [steps[0].user] else []) + UsersPosted(steps[1..])
  }

  /** The requests that users make of a pool that has had `n` of them. */
  function Asked(n: nat, users: seq<nat>): seq<Request>
    decreases users
  {
    if users == [] then [] else [Request(n, users[0])] + Asked(n + 1, users[1..])
  }

  lemma StepPosts(p: Pool, s: Step)
    requires Enabled(p, s)
    ensures Next(p, s).posted == if s.Post? then p.posted + [Request(|p.posted|, s.user)] else p.posted
  {
  }

  lemma {:induction false} RunPosts(p: Pool, steps: seq<Step>)
    requires Legal(p, steps)
    ensures Run(p, steps).posted == p.posted + Asked(|p.posted|, UsersPosted(steps))
    decreases |steps|
  {
    if steps != [] {
      var rest := UsersPosted(steps[1..]);
      StepPosts(p, steps[0]);
      RunPosts(Next(p, steps[0]), steps[1..]);
      if steps[0].Post? {
        var user := steps[0].user;
        assert ([user] + rest)[1..] == rest;
        assert p.posted + [Request(|p.posted|, user)] + Asked(|p.posted| + 1, rest)
            == p.posted + ([Request(|p.posted|, user)] + Asked(|p.posted| + 1, rest));
      } else {
        assert [] + rest == rest;
      }
    }
  }

  /** What is posted is what was asked for: the requests of a schedule, each for its own user, in order. */
  lemma PostedAreAsked(maxWorkers: nat, steps: seq<Step>, p: Pool)
    requires Reachable(maxWorkers, steps, p)
    ensures p.posted == Asked(0, UsersPosted(steps))
  {
    RunPosts(Initial(maxWorkers), steps);
    assert [] + Asked(0, UsersPosted(steps)) == Asked(0, UsersPosted(steps));
  }

  /* ---- Flags and clock ---- */

  /** How far the flag loop has got. */
  function Cleared(p: Pool): nat {
    match p.phase
    case Starting => 0
    case Serving => 0
    case Clearing(i) => i
    case _ => |p.workers|
  }

  /** A worker that has started and whose flag the loop has passed. */
  ghost predicate Passed(p: Pool, w: nat) {
    w < |p.workers| && p.workers[w].pc != NotStarted && (w < Cleared(p) ==> !p.workers[w].running)
  }

  lemma {:induction false} RunKeepsPassed(p: Pool, steps: seq<Step>, w: nat)
    requires Legal(p, steps) && PhaseInvariant(p) && Passed(p, w) && !p.phase.Starting?
    ensures Passed(Run(p, steps), w) && PhaseInvariant(Run(p, steps))
    decreases |steps|
  {
    if steps != [] {
      NextKeepsPhase(p, steps[0]);
      RunKeepsPassed(Next(p, steps[0]), steps[1..], w);
    }
  }

  /** The flag of every worker that had started before termination is down once the flag loop has passed it,
      and it stays down. */
  lemma FlagsAreCleared(maxWorkers: nat, steps: seq<Step>, p: Pool, more: seq<Step>, q: Pool, w: nat)
    requires Reachable(maxWorkers, steps, p) && p.phase == Serving && Leads(p, more, q)
    requires w < |p.workers| && p.workers[w].pc != NotStarted && w < Cleared(q)
    ensures w < |q.workers| && !q.workers[w].running
  {
    ReachableInv(maxWorkers, steps, p);
    RunKeepsPassed(p, more, w);
  }

  /** A started worker whose flag is down takes no packet any more once it has left the port. */
  lemma {:induction false} NoMorePackets(p: Pool, steps: seq<Step>, w: nat)
    requires Legal(p, steps) && w < |p.workers|
    requires !p.workers[w].running && p.workers[w].pc != NotStarted && p.workers[w].pc != Waiting
    ensures var q := Run(p, steps); w < |q.workers| && q.workers[w].pc != Waiting && !q.workers[w].running
    decreases |steps|
  {
    if steps != [] {
      NoMorePackets(Next(p, steps[0]), steps[1..], w);
    }
  }

  predicate TimedOut(p: Pool) {
    p.phase in {Emptying(true), Closing(true), Closed(true)}
  }

  lemma {:induction false} TimeoutNeedsTheClock(p: Pool, steps: seq<Step>)
    requires Legal(p, steps) && TimedOut(Run(p, steps))
    ensures TimedOut(p) || Extension(true) in steps
    decreases |steps|
  {
    if steps != [] {
      TimeoutNeedsTheClock(Next(p, steps[0]), steps[1..]);
    }
  }

  /** Unless the clock runs out the map is emptied and the port closed only when every worker has exited. */
  lemma WaitsForEveryWorker(maxWorkers: nat, steps: seq<Step>, p: Pool)
    requires Reachable(maxWorkers, steps, p) && Extension(true) !in steps
    requires p.phase.Emptying? || p.phase.Closing? || p.phase.Closed?
    ensures EveryOtherExited(p, [])
  {
    ReachableInv(maxWorkers, steps, p);
    if TimedOut(p) {
      TimeoutNeedsTheClock(Initial(maxWorkers), steps);
    }
  }

  /** The statements of the extension in a schedule. */
  function Turns(steps: seq<Step>): nat {
    if steps == [] then 0 else Unit(steps[0].Extension?) + Turns(steps[1..])
  }

  /** Every worker has exited, and the poll loop has begun a round since, or is left. */
  predicate Ending(p: Pool) {
    && (forall w: nat | w < |p.workers| :: p.workers[w].pc == Exited)
    && match p.phase
       case Polling(_) | Emptying(_) | Closing(_) | Closed(_) => true
       case Filtering(_, kept) => kept == []
       case _ => false
  }

  /** What is left of the poll loop then: one round, and a last look at the list. */
  function PollWork(p: Pool): nat {
    match p.phase
    case Polling(alive) => if alive == [] then 1 else |alive| + 3
    case Filtering(rest, _) => |rest| + 2
    case _ => 0
  }

  lemma EndingStep(p: Pool, s: Step)
    requires Ending(p) && Enabled(p, s)
    ensures Ending(Next(p, s)) && PollWork(Next(p, s)) <= PollWork(p)
    ensures s.Extension? && PollWork(p) > 0 ==> PollWork(Next(p, s)) < PollWork(p)
    ensures s.Extension? && p.phase == Polling([]) ==> Next(p, s).phase == Emptying(false)
  {
  }

  /** Once every worker has exited the extension leaves the poll loop after one more round of questions, whatever
      is posted meanwhile and however much time it has. */
  lemma {:induction false} PollingEnds(p: Pool, steps: seq<Step>)
    requires Ending(p) && Legal(p, steps) && Turns(steps) >= PollWork(p)
    ensures var q := Run(p, steps); !q.phase.Polling? && !q.phase.Filtering?
    decreases |steps|
  {
    if steps != [] {
      EndingStep(p, steps[0]);
      PollingEnds(Next(p, steps[0]), steps[1..]);
    }
  }
}
