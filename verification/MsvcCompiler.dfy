/** `MyMSVCCompiler`: cl.exe runs are put off until distutils is done, then merged and run. */
module MsvcCompiler {
  import opened Wrappers
  import opened Counting
  import opened ClCommands
  import opened Grouping
  import opened Batching
  import opened BatchTheorems

  /** What distutils does while it compiles: it asks for a command, which would succeed or not, or it
      raises by itself. */
  datatype Event = Call(cmd: Command, ok: bool) | Fail

  /** A command that was started, and whether it succeeded. */
  datatype Ran = Ran(cmd: Command, ok: bool)

  /** What one `compile` started, and whether it came to its end. */
  datatype Build = Build(log: seq<Ran>, completed: bool)

  datatype Collection = Collection(pending: seq<Command>, log: seq<Ran>, completed: bool)

  /** The commands of a log. */
  function Started(log: seq<Ran>): seq<Command> {
    if log == [] then [] else [log[0].cmd] + Started(log[1..])
  }

  function IsCl(cc: string): Command -> bool {
    cmd => cmd != [] && cmd[0] == cc
  }

  function NotCl(cc: string): Command -> bool {
    cmd => !IsCl(cc)(cmd)
  }

  /** Distutils at work with no collecting: every command starts at once. */
  function Unbatched(plan: seq<Event>): Build {
    if plan == [] then Build([], true)
    else if plan[0].Fail? then Build([], false)
    else if !plan[0].ok then Build([Ran(plan[0].cmd, false)], false)
    else var rest := Unbatched(plan[1..]); Build([Ran(plan[0].cmd, true)] + rest.log, rest.completed)
  }

  /** Distutils at work while cl.exe commands are collected; an empty command has no first word to look at. */
  function Collect(cc: string, plan: seq<Event>): Collection
    decreases |plan|
  {
    if plan == [] then Collection([], [], true)
    else if plan[0].Fail? || plan[0].cmd == [] then Collection([], [], false)
    else if plan[0].cmd[0] == cc then
      var rest := Collect(cc, plan[1..]); rest.(pending := [plan[0].cmd] + rest.pending)
    else if !plan[0].ok then Collection([], [Ran(plan[0].cmd, false)], false)
    else var rest := Collect(cc, plan[1..]); rest.(log := [Ran(plan[0].cmd, true)] + rest.log)
  }

  /** The merged commands, from number `k` on, up to the first that fails; `failsAt` is the number of the one
      that would. */
  function RunFrom(cmds: seq<Command>, k: nat, failsAt: Option<nat>): Build
    decreases |cmds|
  {
    if cmds == [] then Build([], true)
    else if failsAt == Some(k) then Build([Ran(cmds[0], false)], false)
    else
      var rest := RunFrom(cmds[1..], k + 1, failsAt);
      Build([Ran(cmds[0], true)] + rest.log, rest.completed)
  }

  /** `compile` of a compiler that is not collecting already. */
  function CompilePlan(cc: string, plan: seq<Event>, expected: nat, jobs: nat, failsAt: Option<nat>): Build {
    if jobs == 1 then Unbatched(plan)
    else
      var c := Collect(cc, plan);
      if !c.completed || |c.pending| != expected then Build(c.log, false)
      else
        match Batched(c.pending, jobs)
        case Err(_) => Build(c.log, false)
        case Ok(cmds) => var merged := RunFrom(cmds, 0, failsAt); Build(c.log + merged.log, merged.completed)
  }

  /* ---- Deferral ---- */

  function Commands(plan: seq<Event>): seq<Command> {
    if plan == [] then [] else (if plan[0].Call? then [plan[0].cmd] else []) + Commands(plan[1..])
  }

  lemma PrefixUnder<T>(a: seq<T>, b: seq<T>, x: T)
    requires a <= b
    ensures [x] + a <= [x] + b
  {
  }

  lemma FilterCons<T>(s: seq<T>, x: T, f: T -> bool)
    ensures Filter([x] + s, f) == if f(x) then [x] + Filter(s, f) else Filter(s, f)
  {
    assert ([x] + s)[1..] == s;
  }

  /** A completed collection has every cl.exe command put off and every other started, each in order; a
      broken one has started a beginning of the others. */
  lemma {:induction false} CollectionSplits(cc: string, plan: seq<Event>)
    ensures Started(Collect(cc, plan).log) <= Filter(Commands(plan), NotCl(cc))
    ensures Collect(cc, plan).completed ==>
              && Started(Collect(cc, plan).log) == Filter(Commands(plan), NotCl(cc))
              && Collect(cc, plan).pending == Filter(Commands(plan), IsCl(cc))
    decreases |plan|
  {
    if plan != [] && plan[0].Call? {
      CollectionSplits(cc, plan[1..]);
      FilterCons(Commands(plan[1..]), plan[0].cmd, NotCl(cc));
      FilterCons(Commands(plan[1..]), plan[0].cmd, IsCl(cc));
      PrefixUnder(Started(Collect(cc, plan[1..]).log), Filter(Commands(plan[1..]), NotCl(cc)), plan[0].cmd);
    }
  }

  lemma {:induction false} UnbatchedRunsAll(plan: seq<Event>)
    ensures Unbatched(plan).completed ==> Started(Unbatched(plan).log) == Commands(plan)
  {
    if plan != [] {
      UnbatchedRunsAll(plan[1..]);
    }
  }

  lemma StartedFirst(r: Ran, log: seq<Ran>)
    ensures Started([r] + log) == [r.cmd] + Started(log)
  {
    assert ([r] + log)[1..] == log;
  }

  lemma {:induction false} StartedConcat(a: seq<Ran>, b: seq<Ran>)
    ensures Started(a + b) == Started(a) + Started(b)
  {
    if a == [] {
      assert a + b == b;
    } else {
      StartedConcat(a[1..], b);
      StartedFirst(a[0], a[1..]);
      StartedFirst(a[0], a[1..] + b);
      assert [a[0]] + a[1..] == a;
      Reassociate([a[0]], a[1..], b);
      Reassociate([a[0].cmd], Started(a[1..]), Started(b));
    }
  }

  /* ---- What failed ---- */

  /** Nothing is started after a command that failed. */
  predicate StopsAtFailure(log: seq<Ran>) {
    forall i | 0 <= i < |log| - 1 :: log[i].ok
  }

  predicate LastFailed(log: seq<Ran>) {
    log != [] && !log[|log| - 1].ok
  }

  lemma FirstRan(r: Ran, log: seq<Ran>)
    ensures r.ok ==> (StopsAtFailure([r] + log) <==> StopsAtFailure(log)) && LastFailed([r] + log) == LastFailed(log)
    ensures Started([r] + log) == [r.cmd] + Started(log)
  {
    StartedFirst(r, log);
    if StopsAtFailure([r] + log) {
      assert forall i | 0 <= i < |log| :: log[i] == ([r] + log)[i + 1];
    }
  }

  /** The merged commands run in order, up to the first that fails, which makes the whole fail. */
  lemma {:induction false} RunsInOrder(cmds: seq<Command>, k: nat, failsAt: Option<nat>)
    ensures var b := RunFrom(cmds, k, failsAt);
            && Started(b.log) <= cmds && StopsAtFailure(b.log)
            && (b.completed <==> !LastFailed(b.log)) && (b.completed ==> Started(b.log) == cmds)
    decreases |cmds|
  {
    if cmds != [] {
      var rest := RunFrom(cmds[1..], k + 1, failsAt);
      RunsInOrder(cmds[1..], k + 1, failsAt);
      FirstRan(Ran(cmds[0], true), rest.log);
      FirstRan(Ran(cmds[0], false), []);
      assert [Ran(cmds[0], false)] + [] == [Ran(cmds[0], false)] && [cmds[0]] + [] == [cmds[0]];
    }
  }

  /** And each ends as it would. */
  lemma {:induction false} OutcomeIs(cmds: seq<Command>, k: nat, failsAt: Option<nat>, i: nat)
    requires i < |RunFrom(cmds, k, failsAt).log|
    ensures RunFrom(cmds, k, failsAt).log[i].ok <==> failsAt != Some(k + i)
    decreases |cmds|
  {
    if i > 0 {
      OutcomeIs(cmds[1..], k + 1, failsAt, i - 1);
    }
  }

  lemma {:induction false} CollectionStops(cc: string, plan: seq<Event>)
    ensures StopsAtFailure(Collect(cc, plan).log)
    ensures Collect(cc, plan).completed ==> !LastFailed(Collect(cc, plan).log)
    decreases |plan|
  {
    if plan != [] {
      CollectionStops(cc, plan[1..]);
      if plan[0].Call? {
        FirstRan(Ran(plan[0].cmd, true), Collect(cc, plan[1..]).log);
      }
    }
  }

  lemma {:induction false} UnbatchedStops(plan: seq<Event>)
    ensures StopsAtFailure(Unbatched(plan).log) && Started(Unbatched(plan).log) <= Commands(plan)
    ensures Unbatched(plan).completed <==> forall e | e in plan :: e.Call? && e.ok
    ensures Unbatched(plan).completed ==> !LastFailed(Unbatched(plan).log)
    ensures Fail !in plan && !Unbatched(plan).completed ==> LastFailed(Unbatched(plan).log)
  {
    if plan != [] {
      UnbatchedStops(plan[1..]);
      if plan[0].Call? {
        FirstRan(Ran(plan[0].cmd, true), Unbatched(plan[1..]).log);
        assert Started([Ran(plan[0].cmd, false)]) == [plan[0].cmd];
        PrefixUnder(Started(Unbatched(plan[1..]).log), Commands(plan[1..]), plan[0].cmd);
      }
      assert plan == [plan[0]] + plan[1..];
    }
  }

  lemma LogConcat(a: seq<Ran>, b: seq<Ran>)
    requires StopsAtFailure(a) && !LastFailed(a) && StopsAtFailure(b)
    ensures StopsAtFailure(a + b) && LastFailed(a + b) == LastFailed(b)
  {
  }

  /** Whatever the number of jobs, nothing is started after a command that failed.  A batched `compile` raises
      exactly if collecting, counting or merging failed or the last command it started did; an unbatched one
      exactly if distutils raised or a command failed. */
  lemma CompileRaisesIff(cc: string, plan: seq<Event>, expected: nat, jobs: nat, failsAt: Option<nat>)
    ensures var b := CompilePlan(cc, plan, expected, jobs, failsAt);
            && StopsAtFailure(b.log) && (b.completed ==> !LastFailed(b.log))
            && (b.completed <==> if jobs == 1 then forall e | e in plan :: e.Call? && e.ok
                                 else Deferred(cc, plan, expected, jobs) && !LastFailed(b.log))
  {
    if jobs == 1 {
      UnbatchedStops(plan);
    } else {
      CollectionStops(cc, plan);
      if Deferred(cc, plan, expected, jobs) {
        var cmds := Batched(Collect(cc, plan).pending, jobs).value;
        RunsInOrder(cmds, 0, failsAt);
        LogConcat(Collect(cc, plan).log, RunFrom(cmds, 0, failsAt).log);
      }
    }
  }

  lemma {:induction false} StartedLength(log: seq<Ran>)
    ensures |Started(log)| == |log|
  {
    if log != [] {
      StartedLength(log[1..]);
    }
  }

  lemma BehindOthers(before: seq<Ran>, cmds: seq<Command>, failsAt: Option<nat>)
    ensures var log := before + RunFrom(cmds, 0, failsAt).log;
            && Started(before) <= Started(log) <= Started(before) + cmds
            && |Started(log)| == |log| && |Started(before)| == |before|
            && forall i | |before| <= i < |log| :: log[i].ok <==> failsAt != Some(i - |before|)
  {
    var run := RunFrom(cmds, 0, failsAt).log;
    RunsInOrder(cmds, 0, failsAt);
    StartedConcat(before, run);
    StartedLength(before);
    StartedLength(before + run);
    forall i | |before| <= i < |before + run| ensures (before + run)[i].ok <==> failsAt != Some(i - |before|) {
      OutcomeIs(cmds, 0, failsAt, i - |before|);
    }
  }

  /** The merged commands of a batched compile start behind the others, in order, and each ends as it would: the
      first that fails is the last that starts. */
  lemma MergedRun(cc: string, plan: seq<Event>, expected: nat, jobs: nat, failsAt: Option<nat>)
    requires jobs != 1 && Deferred(cc, plan, expected, jobs)
    ensures var b := CompilePlan(cc, plan, expected, jobs, failsAt);
            var others := Filter(Commands(plan), NotCl(cc));
            var merged := Batched(Filter(Commands(plan), IsCl(cc)), jobs);
            && merged.Ok? && others <= Started(b.log) <= others + merged.value
            && |Started(b.log)| == |b.log|
            && (forall i | |others| <= i < |b.log| :: b.log[i].ok <==> failsAt != Some(i - |others|))
  {
    var c := Collect(cc, plan);
    CollectionSplits(cc, plan);
    BehindOthers(c.log, Batched(c.pending, jobs).value, failsAt);
  }

  /** What distutils may do without bringing a batched compile to an end: ask for a cl.exe command, which is put
      off whatever becomes of it, or for another that succeeds. */
  predicate GoesOn(cc: string, e: Event) {
    e.Call? && e.cmd != [] && (e.cmd[0] == cc || e.ok)
  }

  lemma {:induction false} CollectsIff(cc: string, plan: seq<Event>)
    ensures Collect(cc, plan).completed <==> forall e | e in plan :: GoesOn(cc, e)
    decreases |plan|
  {
    if plan != [] {
      CollectsIff(cc, plan[1..]);
      assert plan[0] in plan && forall e | e in plan :: e == plan[0] || e in plan[1..];
      assert forall e | e in plan[1..] :: e in plan;
    }
  }

  lemma {:induction false} RunsThroughIff(cmds: seq<Command>, k: nat, failsAt: Option<nat>)
    ensures RunFrom(cmds, k, failsAt).completed <==> failsAt == None || !(k <= failsAt.value < k + |cmds|)
    decreases |cmds|
  {
    if cmds != [] {
      RunsThroughIff(cmds[1..], k + 1, failsAt);
    }
  }

  /** A batched compile completes exactly if distutils goes on to the end, as many cl.exe commands were asked for
      as there are sources to compile, they can be merged, and no merged command fails. */
  lemma CompletesIff(cc: string, plan: seq<Event>, expected: nat, jobs: nat, failsAt: Option<nat>)
    requires jobs != 1
    ensures var cls := Filter(Commands(plan), IsCl(cc));
            CompilePlan(cc, plan, expected, jobs, failsAt).completed
            <==> && (forall e | e in plan :: GoesOn(cc, e)) && |cls| == expected && Batched(cls, jobs).Ok?
                 && (failsAt == None || failsAt.value >= |Batched(cls, jobs).value|)
  {
    CollectsIff(cc, plan);
    CollectionSplits(cc, plan);
    if Deferred(cc, plan, expected, jobs) {
      RunsThroughIff(Batched(Collect(cc, plan).pending, jobs).value, 0, failsAt);
    }
  }

  /** Whether a batched compile gets to run its merged commands. */
  predicate Deferred(cc: string, plan: seq<Event>, expected: nat, jobs: nat) {
    var c := Collect(cc, plan);
    c.completed && |c.pending| == expected && Batched(c.pending, jobs).Ok?
  }

  lemma {:induction false} FilterAll<T>(s: seq<T>, f: T -> bool)
    ensures (forall x | x in s :: f(x)) ==> Filter(s, f) == s
    ensures (forall x | x in s :: !f(x)) ==> Filter(s, f) == []
  {
    if s != [] {
      assert s[0] in s;
      FilterAll(s[1..], f);
    }
  }

  lemma FilterMembers<T>(s: seq<T>, f: T -> bool)
    ensures forall x | x in Filter(s, f) :: f(x) && x in s
  {
    forall x | x in Filter(s, f) ensures f(x) && x in s {
      var i :| 0 <= i < |Filter(s, f)| && Filter(s, f)[i] == x;
      FilterKeeps(s, f, i);
    }
  }

  /** A merged command starts with the same word as the commands of its group. */
  lemma MergedIsCl(g: Group, jobs: nat, cc: string, c: Command)
    requires c in g.cmds && Belongs(c, g.key) && IsCl(cc)(c) && !IsInput(cc)
    ensures IsCl(cc)(Merge(g, jobs))
  {
    ParseInverts(c);
  }

  lemma EmittedAreCl(cmds: seq<Command>, jobs: nat, cc: string)
    requires Batched(cmds, jobs).Ok? && !IsInput(cc) && forall c | c in cmds :: IsCl(cc)(c)
    ensures forall c | c in Batched(cmds, jobs).value :: IsCl(cc)(c)
  {
    FirstBadIff(cmds);
    GroupsBelong(cmds);
    GroupsAreClasses(cmds, KeyOf);
    var gs, out := Groups(cmds, KeyOf), Batched(cmds, jobs).value;
    forall k | 0 <= k < |out| ensures IsCl(cc)(out[k]) {
      EmittedLength(gs, jobs);
      EmitAt(gs, jobs, k);
      assert gs[k] in gs && gs[k].cmds[0] in gs[k].cmds;
      MembersHaveKey(cmds, KeyOf, gs[k], gs[k].cmds[0]);
      MergedIsCl(gs[k], jobs, cc, gs[k].cmds[0]);
    }
  }

  lemma {:induction false} EmittedLength(gs: seq<Group>, jobs: nat)
    requires Emit(gs, jobs).Ok?
    ensures |Emit(gs, jobs).value| == |gs|
  {
    if gs != [] {
      EmittedLength(gs[1..], jobs);
    }
  }

  /** A batched compile starts the commands that are not cl.exe first, in the order in which distutils
      asked for them; it starts a cl.exe command only behind all of them, and none at all if collecting,
      counting or merging fails. */
  lemma DeferralIsAllOrNothing(cc: string, plan: seq<Event>, expected: nat, jobs: nat, failsAt: Option<nat>)
    requires jobs != 1 && !IsInput(cc)
    ensures var b := CompilePlan(cc, plan, expected, jobs, failsAt);
            var others := Filter(Commands(plan), NotCl(cc));
            if Deferred(cc, plan, expected, jobs) then
              && others <= Started(b.log)
              && forall c | c in Started(b.log)[|others|..] :: IsCl(cc)(c)
            else
              !b.completed && Started(b.log) <= others
  {
    CollectionSplits(cc, plan);
    if Deferred(cc, plan, expected, jobs) {
      var c := Collect(cc, plan);
      var merged := RunFrom(Batched(c.pending, jobs).value, 0, failsAt);
      FilterMembers(Commands(plan), IsCl(cc));
      EmittedAreCl(c.pending, jobs, cc);
      RunsInOrder(Batched(c.pending, jobs).value, 0, failsAt);
      StartedConcat(c.log, merged.log);
    }
  }

  /** The commands of each kind that a completed batched compile has started. */
  lemma BatchedStarted(cc: string, plan: seq<Event>, expected: nat, jobs: nat, failsAt: Option<nat>)
    requires jobs != 1 && !IsInput(cc) && CompilePlan(cc, plan, expected, jobs, failsAt).completed
    ensures var b := CompilePlan(cc, plan, expected, jobs, failsAt);
            var batch := Batched(Filter(Commands(plan), IsCl(cc)), jobs);
            && Filter(Started(b.log), NotCl(cc)) == Filter(Commands(plan), NotCl(cc))
            && batch.Ok? && Filter(Started(b.log), IsCl(cc)) == batch.value
  {
    CollectionSplits(cc, plan);
    var c := Collect(cc, plan);
    var merged := Batched(c.pending, jobs).value;
    FilterMembers(Commands(plan), IsCl(cc));
    FilterMembers(Commands(plan), NotCl(cc));
    EmittedAreCl(c.pending, jobs, cc);
    RunsInOrder(merged, 0, failsAt);
    StartedConcat(c.log, RunFrom(merged, 0, failsAt).log);
    FilterParts(Started(c.log), merged, cc);
  }

  lemma FilterParts(others: seq<Command>, merged: seq<Command>, cc: string)
    requires (forall c | c in others :: NotCl(cc)(c)) && (forall c | c in merged :: IsCl(cc)(c))
    ensures Filter(others + merged, NotCl(cc)) == others && Filter(others + merged, IsCl(cc)) == merged
  {
    FilterConcat(others, merged, NotCl(cc));
    FilterConcat(others, merged, IsCl(cc));
    FilterAll(others, NotCl(cc));
    FilterAll(others, IsCl(cc));
    FilterAll(merged, NotCl(cc));
    FilterAll(merged, IsCl(cc));
  }

  /** A batched and an unbatched compile of the same plan that both complete start the same commands that
      are not cl.exe, in the same order, and their cl.exe runs compile the same sources with the same flags
      into the same objects, each as often, exactly if every command that shares a group has its object
      where cl itself would put it. */
  lemma BatchingKeepsTheBuildIff(cc: string, plan: seq<Event>, expected: nat, jobs: nat, failsAt: Option<nat>)
    requires jobs != 1 && !IsInput(cc)
    requires CompilePlan(cc, plan, expected, jobs, failsAt).completed
    requires CompilePlan(cc, plan, expected, 1, failsAt).completed
    ensures var b := CompilePlan(cc, plan, expected, jobs, failsAt);
            var u := CompilePlan(cc, plan, expected, 1, failsAt);
            var cls := Filter(Commands(plan), IsCl(cc));
            && Filter(Started(b.log), NotCl(cc)) == Filter(Started(u.log), NotCl(cc))
            && ((forall j: Job :: Count(CompileAll(Filter(Started(b.log), IsCl(cc))), Is(j))
                                  == Count(CompileAll(Filter(Started(u.log), IsCl(cc))), Is(j)))
                <==> (forall c | c in cls && Shares(cls, KeyOf, c) :: NamedAfterSource(c)))
  {
    UnbatchedRunsAll(plan);
    BatchedStarted(cc, plan, expected, jobs, failsAt);
    BuildIsPreservedIff(Filter(Commands(plan), IsCl(cc)), jobs);
  }

  /* ---- The compiler object ---- */

  class MyMsvcCompiler {
    const cc: string
    const jobs: nat                              // `_build_jobs()`, the same at every call
    var pendingCompiles: Option<seq<Command>>    // _pending_compiles
    var log: seq<Ran>                            // every command this compiler has started

    /** Nothing is collected unless commands are batched. */
    ghost predicate Valid()
      reads this
    {
      jobs == 1 ==> pendingCompiles == None
    }

    constructor (cc: string, jobs: nat)
      ensures Valid() && pendingCompiles == None && log == [] && this.cc == cc && this.jobs == jobs
    {
      this.cc, this.jobs := cc, jobs;
      pendingCompiles, log := None, [];
    }

    /** `call`; `ok` says whether the command succeeds if it is started. */
    method Call(cmd: Command, ok: bool) returns (raised: bool)
      requires Valid()
      modifies this
      ensures Valid() && pendingCompiles.Some? == old(pendingCompiles).Some?
      ensures old(pendingCompiles) == None ==> log == old(log) + [Ran(cmd, ok)] && raised == !ok
      ensures old(pendingCompiles).Some? && cmd == [] ==>
                raised && log == old(log) && pendingCompiles == old(pendingCompiles)
      ensures old(pendingCompiles).Some? && cmd != [] && cmd[0] == cc ==>
                !raised && log == old(log) && pendingCompiles == Some(old(pendingCompiles).value + [cmd])
      ensures old(pendingCompiles).Some? && cmd != [] && cmd[0] != cc ==>
                raised == !ok && log == old(log) + [Ran(cmd, ok)] && pendingCompiles == old(pendingCompiles)
    {
      if pendingCompiles.Some? {
        if cmd == [] {
          return true;
        }
        if cmd[0] == cc {
          pendingCompiles := Some(pendingCompiles.value + [cmd]);
          return false;
        }
      }
      log := log + [Ran(cmd, ok)];
      raised := !ok;
    }

    /** Distutils' own `compile`, which asks `call` for one command after another. */
    method SuperCompile(plan: seq<Event>) returns (raised: bool)
      requires Valid()
      modifies this
      ensures Valid() && pendingCompiles.Some? == old(pendingCompiles).Some?
      ensures old(pendingCompiles) == None ==>
                var b := Unbatched(plan); log == old(log) + b.log && raised == !b.completed
      ensures old(pendingCompiles).Some? ==>
                var c := Collect(cc, plan);
                log == old(log) + c.log && raised == !c.completed
                && (c.completed ==> pendingCompiles == Some(old(pendingCompiles).value + c.pending))
    {
      raised := false;
      if plan == [] {
        assert old(pendingCompiles).Some? ==> old(pendingCompiles).value + [] == old(pendingCompiles).value;
        return;
      }
      if plan[0].Fail? {
        return true;
      }
      raised := Call(plan[0].cmd, plan[0].ok);
      if !raised {
        ghost var put := pendingCompiles;
        raised := SuperCompile(plan[1..]);
        Reassociate(old(log), [Ran(plan[0].cmd, true)], Unbatched(plan[1..]).log);
        Reassociate(old(log), [Ran(plan[0].cmd, true)], Collect(cc, plan[1..]).log);
        if put.Some? {
          Reassociate(old(pendingCompiles).value, [plan[0].cmd], Collect(cc, plan[1..]).pending);
        }
      }
    }

    /** `compile`, as far as commands go. `expected` is the number of C and C++ sources, and `failsAt` the
        first merged command that fails. */
    method Compile(plan: seq<Event>, expected: nat, failsAt: Option<nat>) returns (raised: bool)
      requires Valid()
      modifies this
      ensures Valid()
      ensures old(pendingCompiles).Some? ==>
                raised && pendingCompiles == old(pendingCompiles) && log == old(log)
      ensures old(pendingCompiles) == None ==>
                var b := CompilePlan(cc, plan, expected, jobs, failsAt);
                pendingCompiles == None && log == old(log) + b.log && raised == !b.completed
    {
      if jobs == 1 {
        raised := SuperCompile(plan);
        return;
      }
      if pendingCompiles.Some? {
        return true;
      }
      var commands := Collecting(plan, expected);
      if commands == None {
        return true;
      }
      raised := RunMerged(commands.value, failsAt);
      ghost var begun := Collect(cc, plan).log;
      Reassociate(old(log), begun, RunFrom(commands.value, 0, failsAt).log);
    }

    /** The part of `compile` under `try`, which leaves nothing pending however it ends. */
    method Collecting(plan: seq<Event>, expected: nat) returns (commands: Option<seq<Command>>)
      requires Valid() && jobs != 1 && pendingCompiles == None
      modifies this
      ensures Valid() && pendingCompiles == None
      ensures log == old(log) + Collect(cc, plan).log
      ensures commands == if Deferred(cc, plan, expected, jobs)
                          then Some(Batched(Collect(cc, plan).pending, jobs).value) else None
    {
      pendingCompiles := Some([]);
      var raised := SuperCompile(plan);
      Reassociate(Collect(cc, plan).pending, [], []);
      if raised || |pendingCompiles.value| != expected {
        pendingCompiles := None;
        return None;
      }
      var merged := BatchCompiles(pendingCompiles.value, jobs);
      pendingCompiles := None;
      commands := if merged.Ok? then Some(merged.value) else None;
    }

    /** The merged commands, up to the first that fails. */
    method RunMerged(commands: seq<Command>, failsAt: Option<nat>) returns (raised: bool)
      requires Valid() && pendingCompiles == None
      modifies this
      ensures Valid() && pendingCompiles == None
      ensures var b := RunFrom(commands, 0, failsAt); log == old(log) + b.log && raised == !b.completed
    {
      for i := 0 to |commands|
        invariant Valid() && pendingCompiles == None
        invariant var (b, rest) := (RunFrom(commands, 0, failsAt), RunFrom(commands[i..], i, failsAt));
                  log + rest.log == old(log) + b.log && rest.completed == b.completed
      {
        ghost var past, rest := log, RunFrom(commands[i + 1..], i + 1, failsAt);
        assert commands[i..][1..] == commands[i + 1..];
        raised := Call(commands[i], failsAt != Some(i));
        if raised {
          return;
        }
        Reassociate(past, [Ran(commands[i], true)], rest.log);
      }
      assert commands[|commands|..] == [];
      raised := false;
    }
  }
}
