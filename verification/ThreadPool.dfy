/** `ThreadPoolExtension` in its own form: methods that update the extension's state, each atomic
    statement matched with one step of the protocol, and every other thread free to act in between. */
module ThreadPool {
  import opened PoolProtocol
  import opened Wrappers

  class ThreadPoolExtension {
    const maxWorkers: nat
    var workers: seq<Worker>
    var queue: seq<Packet>
    var mapped: bool
    var portOpen: bool
    ghost var phase: Phase
    ghost var posted: seq<Request>
    var requests: nat
    ghost var calls: seq<Call>
    ghost var finished: seq<Request>
    ghost var refused: seq<Request>
    ghost var dropped: seq<Request>

    ghost function View(): Pool
      reads this
    {
      Pool(maxWorkers, workers, queue, phase, mapped, posted, calls, finished, refused, dropped)
    }

    ghost predicate Valid()
      reads this
    {
      Inv(View()) && portOpen == !phase.Closed? && requests == |posted|
    }

    constructor (maxWorkers: nat)
      ensures Valid() && View() == Initial(maxWorkers)
    {
      this.maxWorkers := maxWorkers;
      workers, queue, mapped, portOpen, requests := [], [], true, true, 0;
      phase, posted, calls, finished, refused, dropped := Starting, [], [], [], [], [];
      new;
      InitialInv(maxWorkers);
    }

    /** Queue one request. */
    method HttpExtensionProc(user: nat)
      requires Valid() && portOpen
      modifies this
      ensures Valid() && View() == PostStep(old(View()), user)
    {
      NextKeepsInv(View(), Post(user));
      var request := Request(requests, user);
      queue := queue + [Packet.Work(request)];
      requests := requests + 1;
      posted := posted + [request];
    }

    /** The next statement of worker `w` in `run`. */
    method RunTurn(w: nat, raises: bool)
      requires Valid() && WorkerEnabled(View(), w)
      requires workers[w].pc in {NotStarted, Testing, Waiting} || workers[w].pc.Got?
      modifies this
      ensures View() == WorkerStep(old(View()), w, raises)
      ensures portOpen == old(portOpen) && requests == old(requests)
    {
      var me := workers[w];
      match me.pc {
        case NotStarted => me := me.(pc := Testing, running := true);
        case Testing => me := me.(pc := if me.running then Waiting else Exited);
        case Waiting =>
          me := me.(pc := Got(queue[0]));
          queue := queue[1..];
        case Got(packet) =>
          if packet == Shutdown {
            me := me.(pc := Exited);
          } else if !mapped {
            dropped := dropped + [packet.req];
            me := me.(pc := Exited);
          } else {
            me := me.(pc := Impersonating(packet.req));
          }
      }
      workers := workers[w := me];
    }

    /** The next statement of worker `w` in `DispatchConnection`. */
    method DispatchTurn(w: nat, raises: bool)
      requires Valid() && WorkerEnabled(View(), w)
      requires var pc := workers[w].pc; pc.Impersonating? || pc.Dispatching? || pc.Handling? || pc.Resetting?
      modifies this
      ensures View() == WorkerStep(old(View()), w, raises)
      ensures portOpen == old(portOpen) && requests == old(requests)
    {
      var me := workers[w];
      match me.pc {
        case Impersonating(req) =>
          if raises {
            refused := refused + [req];
            me := me.(pc := Exited);
          } else {
            me := me.(pc := Dispatching(req), token := Some(req.user));
          }
        case Dispatching(req) =>
          calls := calls + [Call(req, me.token)];
          me := me.(pc := if raises then Handling(req) else Resetting(req, false));
        case Handling(req) => me := me.(pc := Resetting(req, raises));
        case Resetting(req, failed) =>
          finished := finished + [req];
          if raises {
            me := me.(pc := Exited);
          } else {
            me := me.(pc := if failed then Exited else Testing, token := None);
          }
      }
      workers := workers[w := me];
    }

    /** The next statement of worker `w`. */
    method WorkerTurn(w: nat, raises: bool)
      requires Valid() && WorkerEnabled(View(), w)
      modifies this
      ensures Valid() && View() == WorkerStep(old(View()), w, raises)
    {
      NextKeepsInv(View(), Step.Work(w, raises));
      var pc := workers[w].pc;
      if pc.Impersonating? || pc.Dispatching? || pc.Handling? || pc.Resetting? {
        DispatchTurn(w, raises);
      } else {
        RunTurn(w, raises);
      }
    }

    /** One step of some other thread, if the chosen one can move. */
    method OtherThread(ghost start: Pool, ghost past: seq<Step>) returns (ghost steps: seq<Step>)
      requires Valid() && Leads(start, past, View())
      modifies this
      ensures Valid() && Leads(start, steps, View())
      ensures phase == old(phase) && |workers| == |old(workers)|
    {
      steps := past;
      var w: nat, raises: bool, user: nat := *, *, *;
      if w >= |workers| {
        if portOpen {
          LeadsOn(start, steps, View(), Post(user));
          HttpExtensionProc(user);
          steps := steps + [Post(user)];
        }
      } else if workers[w].pc != Exited && (workers[w].pc == Waiting ==> queue != [] && portOpen) {
        LeadsOn(start, steps, View(), Step.Work(w, raises));
        WorkerTurn(w, raises);
        steps := steps + [Step.Work(w, raises)];
      }
    }

    /** Whatever the other threads do between two statements of the extension, after the schedule
        `past` has led from `start` to here. */
    method OtherThreads(ghost start: Pool, ghost past: seq<Step>) returns (ghost steps: seq<Step>)
      requires Valid() && Leads(start, past, View())
      modifies this
      ensures Valid() && Leads(start, steps, View())
      ensures phase == old(phase) && |workers| == |old(workers)|
    {
      steps := past;
      var turns: nat :| true;
      for i := 0 to turns
        invariant Valid() && Leads(start, steps, View())
        invariant phase == old(phase) && |workers| == |old(workers)|
      {
        steps := OtherThread(start, steps);
      }
    }

    /** The extension's next statement is a step of the protocol. */
    lemma StatementIsStep(start: Pool, past: seq<Step>, timeout: bool)
      requires Valid() && Leads(start, past, View()) && !phase.Closed?
      ensures Leads(start, past + [Extension(timeout)], ExtensionStep(View(), timeout))
      ensures Inv(ExtensionStep(View(), timeout))
    {
      LeadsOn(start, past, View(), Extension(timeout));
      NextKeepsInv(View(), Extension(timeout));
    }

    /** Start the workers. */
    method GetExtensionVersion() returns (ghost steps: seq<Step>)
      requires Valid() && phase == Starting && workers == []
      modifies this
      ensures Valid() && Leads(old(View()), steps, View())
      ensures phase == Serving && |workers| == maxWorkers
    {
      ghost var start := View();
      steps := [];
      for i := 0 to maxWorkers
        invariant Valid() && Leads(start, steps, View())
        invariant phase == Starting && |workers| == i
      {
        StatementIsStep(start, steps, false);
        workers := workers + [Worker(NotStarted, false, None)];
        steps := OtherThreads(start, steps + [Extension(false)]);
      }
      StatementIsStep(start, steps, false);
      phase := Serving;
      steps := steps + [Extension(false)];
    }

    /** `[w for w in alive if w.is_alive()]`, with the other threads running between two questions. */
    method StillAlive(alive: seq<nat>, ghost start: Pool, ghost past: seq<Step>)
      returns (kept: seq<nat>, ghost steps: seq<Step>)
      requires Valid() && Leads(start, past, View()) && phase == Filtering(alive, [])
      modifies this
      ensures Valid() && Leads(start, steps, View())
      ensures phase == Polling(kept) && |workers| == |old(workers)|
    {
      kept, steps := [], past;
      for i := 0 to |alive|
        invariant Valid() && Leads(start, steps, View())
        invariant phase == Filtering(alive[i..], kept) && |workers| == |old(workers)|
      {
        StatementIsStep(start, steps, false);
        assert alive[i..][1..] == alive[i + 1..];
        if alive[i] < |workers| && workers[alive[i]].pc != Exited {
          kept := kept + [alive[i]];
        }
        phase := Filtering(alive[i + 1..], kept);
        steps := OtherThreads(start, steps + [Extension(false)]);
      }
      StatementIsStep(start, steps, false);
      phase := Polling(kept);
      steps := steps + [Extension(false)];
    }

    method ClearFlags(ghost start: Pool, ghost past: seq<Step>) returns (ghost steps: seq<Step>)
      requires Valid() && Leads(start, past, View()) && phase == Clearing(0)
      modifies this
      ensures Valid() && Leads(start, steps, View())
      ensures phase == Posting(0) && |workers| == |old(workers)|
    {
      steps := past;
      for i := 0 to |workers|
        invariant Valid() && Leads(start, steps, View())
        invariant phase == Clearing(i) && |workers| == |old(workers)|
      {
        StatementIsStep(start, steps, false);
        workers := workers[i := workers[i].(running := false)];
        phase := Clearing(i + 1);
        steps := OtherThreads(start, steps + [Extension(false)]);
      }
      StatementIsStep(start, steps, false);
      phase := Posting(0);
      steps := steps + [Extension(false)];
    }

    method PostShutdowns(ghost start: Pool, ghost past: seq<Step>)
      returns (alive: seq<nat>, ghost steps: seq<Step>)
      requires Valid() && Leads(start, past, View()) && phase == Posting(0)
      modifies this
      ensures Valid() && Leads(start, steps, View())
      ensures phase == Polling(alive)
    {
      steps := past;
      for i := 0 to |workers|
        invariant Valid() && Leads(start, steps, View())
        invariant phase == Posting(i) && |workers| == |old(workers)|
      {
        StatementIsStep(start, steps, false);
        queue := queue + [Shutdown];
        phase := Posting(i + 1);
        steps := OtherThreads(start, steps + [Extension(false)]);
      }
      StatementIsStep(start, steps, false);
      alive := Everyone(|workers|);
      phase := Polling(alive);
      steps := steps + [Extension(false)];
    }

    /** Poll until every worker has exited or the clock, which allows `patience` polls, runs out. */
    method Poll(everyone: seq<nat>, patience: nat, ghost start: Pool, ghost past: seq<Step>)
      returns (timedOut: bool, ghost steps: seq<Step>)
      requires Valid() && Leads(start, past, View()) && phase == Polling(everyone)
      modifies this
      ensures Valid() && Leads(start, steps, View())
      ensures phase == Emptying(timedOut)
    {
      var alive, polls := everyone, 0;
      steps := past;
      while alive != []
        invariant Valid() && Leads(start, steps, View()) && polls <= patience
        invariant phase == Polling(alive)
        decreases patience - polls
      {
        StatementIsStep(start, steps, polls == patience);
        steps := steps + [Extension(polls == patience)];
        if polls == patience {
          phase := Emptying(true);
          return true, steps;
        }
        polls := polls + 1;
        phase := Filtering(alive, []);
        steps := OtherThreads(start, steps);
        alive, steps := StillAlive(alive, start, steps);
      }
      StatementIsStep(start, steps, false);
      phase := Emptying(false);
      steps := steps + [Extension(false)];
      timedOut := false;
    }

    /** Break the dispatch map, then close the port. */
    method CloseDown(timedOut: bool, ghost start: Pool, ghost past: seq<Step>) returns (ghost steps: seq<Step>)
      requires Valid() && Leads(start, past, View()) && phase == Emptying(timedOut)
      modifies this
      ensures Valid() && Leads(start, steps, View())
      ensures phase == Closed(timedOut) && !mapped && !portOpen
    {
      StatementIsStep(start, past, false);
      mapped := false;
      phase := Closing(timedOut);
      steps := OtherThreads(start, past + [Extension(false)]);
      StatementIsStep(start, steps, false);
      portOpen := false;
      phase := Closed(timedOut);
      steps := steps + [Extension(false)];
    }

    /** Clear every flag, post one shutdown packet per worker, wait for the workers, then break the
        dispatch map and close the port.  However the threads interleave, this is a run of the protocol,
        no live worker is left without a shutdown packet, and only a timeout leaves one running. */
    method TerminateExtension(patience: nat) returns (timedOut: bool, ghost steps: seq<Step>)
      requires Valid() && phase == Serving
      modifies this
      ensures Valid() && Leads(old(View()), steps, View())
      ensures phase == Closed(timedOut) && !mapped && !portOpen
      ensures Outstanding(View()) <= Shutdowns(View())
      ensures !timedOut ==> EveryOtherExited(View(), [])
    {
      ghost var start := View();
      StatementIsStep(start, [], false);
      phase := Clearing(0);
      steps := ClearFlags(start, [] + [Extension(false)]);
      var alive;
      alive, steps := PostShutdowns(start, steps);
      timedOut, steps := Poll(alive, patience, start, steps);
      steps := CloseDown(timedOut, start, steps);
      ClosedFacts(View());
    }
  }

  lemma ClosedFacts(p: Pool)
    requires Inv(p) && p.phase.Closed?
    ensures Outstanding(p) <= Shutdowns(p)
    ensures !p.phase.timedOut ==> EveryOtherExited(p, [])
  {
    assert Sent(p) == |p.workers|;
  }
}
