/** What every run of the thread pool guarantees: shutdown reaches every worker, and every request is
    kept, dispatched at most once, and dispatched under its own user's token. */
module PoolTheorems {
  import opened Counting
  import opened PoolProtocol
  import opened Wrappers

  /** The posting loop of `TerminateExtension` is over. */
  predicate PostingDone(p: Pool) {
    !(p.phase.Starting? || p.phase.Serving? || p.phase.Clearing? || p.phase.Posting?)
  }

  ghost predicate Reachable(maxWorkers: nat, steps: seq<Step>, p: Pool) {
    Leads(Initial(maxWorkers), steps, p)
  }

  lemma ReachableInv(maxWorkers: nat, steps: seq<Step>, p: Pool)
    requires Reachable(maxWorkers, steps, p)
    ensures Inv(p)
  {
    InitialInv(maxWorkers);
    RunKeepsInv(Initial(maxWorkers), steps, p);
  }

  /* ---- Shutdown ---- */

  /** In every reachable interleaving after the posting loop there is a shutdown packet left for each
      worker that is still owed one, whatever the `running` flags say. */
  lemma ShutdownStrandsNobody(maxWorkers: nat, steps: seq<Step>, p: Pool)
    requires Reachable(maxWorkers, steps, p) && PostingDone(p)
    ensures Outstanding(p) <= Shutdowns(p) <= |p.workers|
  {
    ReachableInv(maxWorkers, steps, p);
    assert Sent(p) == |p.workers|;
  }

  /** Before termination begins no shutdown packet exists, so no worker can be told to stop. */
  lemma NoEarlyShutdown(maxWorkers: nat, steps: seq<Step>, p: Pool)
    requires Reachable(maxWorkers, steps, p)
    requires p.phase.Starting? || p.phase.Serving? || p.phase.Clearing?
    ensures Shutdown !in p.queue
    ensures forall w | w in p.workers :: w.pc != Got(Shutdown)
  {
    ReachableInv(maxWorkers, steps, p);
    if Shutdown in p.queue {
      var i :| 0 <= i < |p.queue| && p.queue[i] == Shutdown;
      CountPositive(p.queue, i, Is(Shutdown));
    }
  }

  /** After the posting loop a worker that has not exited can always take its next step. */
  lemma NobodyBlocks(p: Pool, w: nat)
    requires Inv(p) && PostingDone(p) && !p.phase.Closed? && Alive(p, w)
    ensures WorkerEnabled(p, w)
  {
    if p.workers[w].pc == Waiting {
      CountPositive(p.workers, w, Owed());
      var _ := CountWitness(p.queue, Is(Shutdown));
    }
  }

  function Rank(): Worker -> nat {
    (w: Worker) =>
      match w.pc
      case Exited => 0
      case Waiting => 1
      case Testing => 2
      case NotStarted => 3
      case Resetting(_, _) => 3
      case Handling(_) => 4
      case Dispatching(_) => 5
      case Impersonating(_) => 6
      case Got(_) => 7
  }

  /** An upper bound on the worker steps that remain when nothing more is posted. */
  function Remaining(p: Pool): nat {
    7 * |p.queue| + Sum(p.workers, Rank())
  }

  lemma {:induction false} WorkDecreases(p: Pool, w: nat, raises: bool)
    requires WorkerEnabled(p, w)
    ensures Remaining(WorkerStep(p, w, raises)) < Remaining(p)
  {
    SumUpdate(p.workers, w, WorkerStep(p, w, raises).workers[w], Rank());
  }

  lemma ExtensionAfterPosting(p: Pool, timeout: bool)
    requires PostingDone(p) && !p.phase.Closed?
    ensures PostingDone(ExtensionStep(p, timeout))
    ensures Remaining(ExtensionStep(p, timeout)) == Remaining(p)
  {
  }

  function WorkSteps(steps: seq<Step>): nat {
    Count(steps, IsWork())
  }

  function IsWork(): Step -> bool {
    (s: Step) => s.Work?
  }

  lemma {:induction false} ShutdownIsBounded(p: Pool, steps: seq<Step>)
    requires PostingDone(p) && Legal(p, steps)
    requires forall s | s in steps :: !s.Post?
    ensures WorkSteps(steps) + Remaining(Run(p, steps)) <= Remaining(p)
    ensures PostingDone(Run(p, steps))
    decreases |steps|
  {
    if steps != [] {
      var q := Next(p, steps[0]);
      if steps[0].Work? {
        WorkDecreases(p, steps[0].worker, steps[0].raises);
      } else {
        ExtensionAfterPosting(p, steps[0].timeout);
      }
      ShutdownIsBounded(q, steps[1..]);
    }
  }

  /** Shutdown terminates: after the posting loop, with no new request and until the port is closed,
      any schedule makes at most `Remaining` worker steps, and the schedules that no worker can prolong
      are exactly those that end with every worker exited. */
  lemma ShutdownTerminates(maxWorkers: nat, steps: seq<Step>, p: Pool, more: seq<Step>, q: Pool)
    requires Reachable(maxWorkers, steps, p) && PostingDone(p)
    requires Leads(p, more, q) && (forall s | s in more :: !s.Post?)
    requires !q.phase.Closed?
    ensures WorkSteps(more) <= Remaining(p)
    ensures (forall w: nat :: !WorkerEnabled(q, w)) <==> EveryOtherExited(q, [])
  {
    ReachableInv(maxWorkers, steps, p);
    RunKeepsInv(p, more, q);
    ShutdownIsBounded(p, more);
    if forall w: nat :: !WorkerEnabled(q, w) {
      forall w: nat | w < |q.workers| ensures q.workers[w].pc == Exited {
        if q.workers[w].pc != Exited {
          NobodyBlocks(q, w);
        }
      }
    }
  }

  /** The poll loop is left without a timeout only when every worker has exited. */
  lemma PollingExitMeansAllExited(maxWorkers: nat, steps: seq<Step>, p: Pool, w: nat)
    requires Reachable(maxWorkers, steps, p)
    requires p.phase in {Emptying(false), Closing(false), Closed(false)}
    requires w < |p.workers|
    ensures p.workers[w].pc == Exited
  {
    ReachableInv(maxWorkers, steps, p);
  }

  /** The race is real: a worker that starts late leaves its flag set after every flag was cleared. */
  lemma LateStartOverwritesFlag() returns (steps: seq<Step>, p: Pool)
    ensures Reachable(1, steps, p) && PostingDone(p)
    ensures p.workers == [Worker(Testing, true, None)]
  {
    steps, p := [], Initial(1);
    for i := 0 to 8
      invariant Reachable(1, steps, p)
      invariant i > 0 ==> p.workers == [Worker(NotStarted, false, None)]
      invariant p.maxWorkers == 1
      invariant p.phase == [Starting, Starting, Serving, Clearing(0), Clearing(1), Posting(0), Posting(1),
                            Polling([0]), Filtering([0], [])][i]
      invariant i == 0 ==> p.workers == []
    {
      LeadsOn(Initial(1), steps, p, Extension(false));
      steps, p := steps + [Extension(false)], Next(p, Extension(false));
    }
    LeadsOn(Initial(1), steps, p, Step.Work(0, false));
    steps, p := steps + [Step.Work(0, false)], Next(p, Step.Work(0, false));
  }

  /* ---- Requests ---- */

  lemma {:induction false} PostedOnce(posted: seq<Request>, i: nat)
    requires forall k | 0 <= k < |posted| :: posted[k].id == k
    requires i < |posted|
    ensures Count(posted, Is(posted[i])) == 1
  {
    var req := posted[i];
    CountZero(posted[..i], Is(req));
    CountZero(posted[i + 1..], Is(req));
    CountConcat(posted[..i], [req], Is(req));
    CountConcat(posted[..i] + [req], posted[i + 1..], Is(req));
    assert posted == posted[..i] + [req] + posted[i + 1..];
  }

  /** Until `dispatch_map` is emptied every posted request is in exactly one place, and it has been
      dispatched exactly once if it has reached `Dispatch` and never otherwise. */
  lemma RequestsAreConserved(maxWorkers: nat, steps: seq<Step>, p: Pool, i: nat)
    requires Reachable(maxWorkers, steps, p) && p.mapped && i < |p.posted|
    ensures var req := p.posted[i];
            && Queued(p, req) + Held(p, req) + Count(p.finished, Is(req)) + Count(p.refused, Is(req)) == 1
            && Dispatched(p, req) == Count(p.workers, HoldsLate(req)) + Count(p.finished, Is(req)) <= 1
  {
    ReachableInv(maxWorkers, steps, p);
    PostedOnce(p.posted, i);
    assert Conserved(p, p.posted[i]);
  }

  /** Emptying the map loses requests but never duplicates one, and only then is anything lost. */
  lemma DispatchedAtMostOnce(maxWorkers: nat, steps: seq<Step>, p: Pool, req: Request)
    requires Reachable(maxWorkers, steps, p)
    ensures Dispatched(p, req) <= Count(p.posted, Is(req)) <= 1
    ensures p.mapped ==> p.dropped == []
  {
    ReachableInv(maxWorkers, steps, p);
    assert Conserved(p, req);
    if req in p.posted {
      var i :| 0 <= i < |p.posted| && p.posted[i] == req;
      PostedOnce(p.posted, i);
    } else {
      CountZero(p.posted, Is(req));
    }
  }

  /** Whatever raises, `Dispatch` runs under the token of the request it serves, and a worker waiting
      at the port impersonates nobody. */
  lemma RequestsAreIsolated(maxWorkers: nat, steps: seq<Step>, p: Pool)
    requires Reachable(maxWorkers, steps, p)
    ensures forall call | call in p.calls :: call.token == Some(call.req.user)
    ensures forall w | w in p.workers && w.pc == Waiting :: w.token == None
  {
    ReachableInv(maxWorkers, steps, p);
    forall w | w in p.workers && w.pc == Waiting ensures w.token == None {
      assert TokenFollowsRequest(w);
    }
  }
}
