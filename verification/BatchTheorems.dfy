/** What merging cl.exe command lines does to the build. */
module BatchTheorems {
  import opened Counting
  import opened ClCommands
  import opened Grouping
  import opened Batching

  /* ---- One merged command ---- */

  /** The group holds commands of the expected shape that agree with its key. */
  ghost predicate Belongs(c: Command, key: Key) {
    Parse(c).Some? && LineOf(c).head == key.head && LineOf(c).tail == key.tail && Dirname(LineOf(c).output) == key.dir
  }

  lemma InputAtIs(c: Command, key: Key)
    requires Belongs(c, key)
    ensures InputAt(c, |key.head|) == LineOf(c).input && IsInput(LineOf(c).input)
    ensures After(c) == Job(LineOf(c).input, Filter(key.head + key.tail, IsFlag),
                            JoinEmpty(key.dir) + ObjectName(LineOf(c).input))
  {
    ParseInverts(c);
  }

  lemma {:induction false} MergedInputs(cmds: seq<Command>, key: Key)
    requires forall c | c in cmds :: Belongs(c, key)
    ensures forall a | a in Inputs(cmds, |key.head|) :: IsInput(a)
    decreases |cmds|
  {
    if cmds != [] {
      assert cmds[0] in cmds;
      InputAtIs(cmds[0], key);
      MergedInputs(cmds[1..], key);
    }
  }

  lemma {:induction false} InputsFilter(ins: seq<Arg>)
    requires forall a | a in ins :: IsInput(a)
    ensures Filter(ins, IsInput) == ins && Filter(ins, IsOutput) == [] && Filter(ins, IsFlag) == []
  {
    if ins != [] {
      assert ins[0] in ins;
      InputsFilter(ins[1..]);
    }
  }

  lemma {:induction false} JobsAre(cmds: seq<Command>, at: nat, flags: Command, dir: string, job: Command -> Job)
    requires forall c | c in cmds :: job(c) == Job(InputAt(c, at), flags, ObjectPath(dir, InputAt(c, at)))
    ensures JobsFor(Inputs(cmds, at), flags, dir) == MapJobs(cmds, job)
    decreases |cmds|
  {
    if cmds != [] {
      assert cmds[0] in cmds;
      JobsAre(cmds[1..], at, flags, dir, job);
    }
  }

  lemma MergedJobs(cmds: seq<Command>, key: Key)
    requires forall c | c in cmds :: Belongs(c, key)
    ensures JobsFor(Inputs(cmds, |key.head|), Filter(key.head + key.tail, IsFlag), JoinEmpty(key.dir))
            == MapJobs(cmds, After)
  {
    var at, flags, dir := |key.head|, Filter(key.head + key.tail, IsFlag), JoinEmpty(key.dir);
    forall c | c in cmds ensures After(c) == Job(InputAt(c, at), flags, ObjectPath(dir, InputAt(c, at))) {
      InputAtIs(c, key);
    }
    JobsAre(cmds, at, flags, dir, After);
  }

  lemma FiveParts(g: Group, jobs: nat, f: Arg -> bool)
    requires !f("/MP" + Decimal(jobs))
    ensures Filter(Merge(g, jobs), f)
            == Filter(g.key.head, f) + Filter(Inputs(g.cmds, |g.key.head|), f)
               + Filter(["/Fo" + JoinEmpty(g.key.dir)], f) + Filter(g.key.tail, f)
  {
    var ins, mp, fo := Inputs(g.cmds, |g.key.head|), ["/MP" + Decimal(jobs)], ["/Fo" + JoinEmpty(g.key.dir)];
    FilterConcat(g.key.head, mp, f);
    FilterOne("/MP" + Decimal(jobs), f);
    assert Filter(g.key.head, f) + [] == Filter(g.key.head, f);
    FilterFour(g.key.head + mp, ins, fo, g.key.tail, f);
  }

  lemma KeyIsPlain(c: Command, key: Key)
    requires Belongs(c, key)
    ensures Plain(key.head) && Plain(key.tail)
  {
    ParseInverts(c);
  }

  /** The three kinds of arguments of a merged command. */
  lemma MergedArguments(g: Group, jobs: nat)
    requires Plain(g.key.head) && Plain(g.key.tail) && forall c | c in g.cmds :: Belongs(c, g.key)
    ensures Filter(Merge(g, jobs), IsInput) == Inputs(g.cmds, |g.key.head|)
    ensures Filter(Merge(g, jobs), IsOutput) == ["/Fo" + JoinEmpty(g.key.dir)]
    ensures Filter(Merge(g, jobs), IsFlag) == Filter(g.key.head + g.key.tail, IsFlag)
  {
    var mp, fo := "/MP" + Decimal(jobs), "/Fo" + JoinEmpty(g.key.dir);
    assert IsMp(mp) && !IsInput(mp) && !IsOutput(mp) && !IsFlag(mp);
    assert IsOutput(fo) && !IsInput(fo) && !IsFlag(fo);
    PlainFilters(g.key.head);
    PlainFilters(g.key.tail);
    MergedInputs(g.cmds, g.key);
    InputsFilter(Inputs(g.cmds, |g.key.head|));
    FiveParts(g, jobs, IsInput);
    FiveParts(g, jobs, IsOutput);
    FiveParts(g, jobs, IsFlag);
    FilterConcat(g.key.head, g.key.tail, IsFlag);
    Trims(Inputs(g.cmds, |g.key.head|), []);
    Trims([fo], []);
    Trims(Filter(g.key.head, IsFlag), Filter(g.key.tail, IsFlag));
  }

  lemma RunIntoDirectory(ins: seq<Arg>, dir: string, flags: Command)
    requires IsDirectory(dir)
    ensures RunCl(ins, ["/Fo" + dir], flags) == JobsFor(ins, flags, dir)
  {
    assert Value("/Fo" + dir) == dir;
  }

  /** A merged command compiles the sources of its group, in their order, each with the flags it had. */
  lemma CompileMerged(g: Group, jobs: nat)
    requires g.cmds != [] && forall c | c in g.cmds :: Belongs(c, g.key)
    ensures Compile(Merge(g, jobs)) == MapJobs(g.cmds, After)
  {
    assert g.cmds[0] in g.cmds;
    KeyIsPlain(g.cmds[0], g.key);
    MergedArguments(g, jobs);
    MergedJobs(g.cmds, g.key);
    RunIntoDirectory(Inputs(g.cmds, |g.key.head|), JoinEmpty(g.key.dir), Filter(g.key.head + g.key.tail, IsFlag));
  }

  lemma Trims<T>(a: seq<T>, b: seq<T>)
    ensures a + [] + [] == a && [] + a + [] + [] == a && [] + [] + a + [] == a && a + [] + [] + b == a + b
  {
  }

  /* ---- All commands ---- */

  lemma {:induction false} RunAllConcat(a: seq<Command>, b: seq<Command>, run: Command -> seq<Job>)
    ensures RunAll(a + b, run) == RunAll(a, run) + RunAll(b, run)
  {
    if a == [] {
      assert a + b == b;
    } else {
      RunAllConcat(a[1..], b, run);
      assert (a + b)[1..] == a[1..] + b;
      Reassociate(run(a[0]), RunAll(a[1..], run), RunAll(b, run));
    }
  }

  lemma RunOne(c: Command, run: Command -> seq<Job>)
    ensures RunAll([c], run) == run(c)
  {
    assert [c][1..] == [];
    assert run(c) + [] == run(c);
  }

  lemma {:induction false} CompileShaped(cmds: seq<Command>)
    requires forall c | c in cmds :: Parse(c).Some?
    ensures CompileAll(cmds) == MapJobs(cmds, Before)
  {
    if cmds != [] {
      assert cmds[0] in cmds;
      CompileOne(cmds[0]);
      CompileShaped(cmds[1..]);
    }
  }

  ghost predicate AllBelong(gs: seq<Group>) {
    forall g | g in gs :: g.cmds != [] && forall c | c in g.cmds :: Belongs(c, g.key)
  }

  lemma GroupCompiles(g: Group, jobs: nat)
    requires g.cmds != [] && forall c | c in g.cmds :: Belongs(c, g.key)
    ensures CompileAll(GroupCommands(g, jobs))
            == MapJobs(g.cmds, if |g.cmds| == 1 then Before else After)
  {
    if |g.cmds| == 1 {
      CompileShaped(g.cmds);
    } else {
      RunOne(Merge(g, jobs), Compile);
      CompileMerged(g, jobs);
    }
  }

  lemma {:induction false} EmitCompiles(gs: seq<Group>, jobs: nat)
    requires AllBelong(gs) && Emit(gs, jobs).Ok?
    ensures CompileAll(Emit(gs, jobs).value) == GroupJobs(gs, Before, After)
    decreases |gs|
  {
    if gs != [] {
      assert gs[0] in gs;
      GroupCompiles(gs[0], jobs);
      EmitCompiles(gs[1..], jobs);
      RunAllConcat(GroupCommands(gs[0], jobs), Emit(gs[1..], jobs).value, Compile);
    }
  }

  lemma GroupsBelong(cmds: seq<Command>)
    requires Shaped(cmds)
    ensures AllBelong(Groups(cmds, KeyOf))
  {
    GroupsAreClasses(cmds, KeyOf);
    forall g | g in Groups(cmds, KeyOf) ensures g.cmds != [] && forall c | c in g.cmds :: Belongs(c, g.key) {
      forall c | c in g.cmds ensures Belongs(c, g.key) {
        MembersHaveKey(cmds, KeyOf, g, c);
      }
    }
  }

  /* ---- Where the objects land ---- */

  lemma {:induction false} HeadOf(dir: string, n: string)
    requires IsDirectory(dir) && NoSep(n)
    ensures HeadLength(dir + n) == |dir|
  {
    if n == "" {
      assert dir + n == dir;
    } else {
      HeadOf(dir, n[..|n| - 1]);
      assert (dir + n)[..|dir + n| - 1] == dir + n[..|n| - 1];
    }
  }

  lemma {:induction false} RStripEnds(s: string)
    ensures RStrip(s) == "" || !IsSep(RStrip(s)[|RStrip(s)| - 1])
    ensures RStrip(RStrip(s)) == RStrip(s)
  {
    if s != "" && IsSep(s[|s| - 1]) {
      RStripEnds(s[..|s| - 1]);
    }
  }

  /** A directory with its separator is the directory of the files in it. */
  lemma DirectoryOfFile(p: string, n: string)
    requires NoSep(n)
    ensures JoinEmpty(Dirname(JoinEmpty(Dirname(p)) + n)) == JoinEmpty(Dirname(p))
  {
    var head := p[..HeadLength(p)];
    var d := Dirname(p);
    var dir := JoinEmpty(d);
    RStripEnds(head);
    HeadOf(dir, n);
    assert (dir + n)[..|dir|] == dir;
    if RStrip(head) != "" {
      assert dir == d + "\\" && dir[..|dir| - 1] == d;
      assert RStrip(dir) == RStrip(d);
    }
  }

  lemma {:induction false} StemNoSep(n: string)
    requires NoSep(n)
    ensures NoSep(Stem(n))
  {
    if '.' in n && n[|n| - 1] != '.' {
      StemNoSep(n[..|n| - 1]);
    }
  }

  lemma {:induction false} BasenameNoSep(p: string)
    ensures NoSep(Basename(p))
  {
    if p != "" && !IsSep(p[|p| - 1]) {
      BasenameNoSep(p[..|p| - 1]);
      assert Basename(p) == Basename(p[..|p| - 1]) + [p[|p| - 1]];
    }
  }

  lemma ObjectNameNoSep(input: Arg)
    ensures NoSep(ObjectName(input))
  {
    BasenameNoSep(Value(input));
    StemNoSep(Basename(Value(input)));
  }

  lemma SameTail(a: string, b: string, n: string)
    requires a + n == b + n
    ensures a == b
  {
    assert (a + n)[..|a|] == a && (b + n)[..|b|] == b;
  }

  /** An object that lands where a merged command would put it is left there by merging. */
  lemma Lands(c: Command, d: Command)
    requires Before(c) == After(d)
    ensures After(c) == After(d)
  {
    var dir := JoinEmpty(Dirname(LineOf(d).output));
    var n := ObjectName(LineOf(d).input);
    ObjectNameNoSep(LineOf(d).input);
    DirectoryOfFile(LineOf(d).output, n);
    DirectoryOfFile(LineOf(d).output, "");
    var o := LineOf(c).output;
    if IsDirectory(o) {
      SameTail(o, dir, n);
      assert dir + "" == dir;
    }
  }

  /* ---- The main results ---- */

  /** The merged commands compile the same sources, with the same flags, into the same objects, each as
      often as before, exactly if every command that shares a group has its object where cl itself would
      put it: in a normalised directory, under the name of its source. */
  lemma BuildIsPreservedIff(cmds: seq<Command>, jobs: nat)
    requires Batched(cmds, jobs).Ok?
    ensures (forall j: Job :: Count(CompileAll(Batched(cmds, jobs).value), Is(j)) == Count(CompileAll(cmds), Is(j)))
            <==> (forall c | c in cmds && Shares(cmds, KeyOf, c) :: NamedAfterSource(c))
  {
    FirstBadIff(cmds);
    GroupsBelong(cmds);
    EmitCompiles(Groups(cmds, KeyOf), jobs);
    CompileShaped(cmds);
    forall c, d | c in cmds && d in cmds && Before(c) == After(d) ensures After(c) == After(d) {
      Lands(c, d);
    }
    BatchingKeepsJobsIff(cmds, KeyOf, Before, After);
  }

  /** Two commands that share a key but whose objects have different names are accepted. */
  lemma PairIsAccepted(a: Line, b: Line, jobs: nat)
    requires WellFormed(a) && WellFormed(b) && Basename(a.output) != Basename(b.output)
    ensures Batched([ToCommand(a), ToCommand(b)], jobs).Ok?
  {
    var cmds := [ToCommand(a), ToCommand(b)];
    ParseAccepts(a);
    ParseAccepts(b);
    RefusedIff(cmds, jobs);
  }

  /** If one of them is not named after its source, the merged command does not build what the two built. */
  lemma MisnamedPairChanges(a: Line, b: Line, jobs: nat) returns (cmds: seq<Command>, j: Job)
    requires WellFormed(a) && WellFormed(b) && Basename(a.output) != Basename(b.output)
    requires a.head == b.head && a.tail == b.tail && Dirname(a.output) == Dirname(b.output)
    requires ObjectPath(a.output, a.input) != JoinEmpty(Dirname(a.output)) + ObjectName(a.input)
    ensures cmds == [ToCommand(a), ToCommand(b)] && Batched(cmds, jobs).Ok?
    ensures Count(CompileAll(Batched(cmds, jobs).value), Is(j)) != Count(CompileAll(cmds), Is(j))
  {
    var x, y := ToCommand(a), ToCommand(b);
    cmds := [x, y];
    ParseAccepts(a);
    ParseAccepts(b);
    PairIsAccepted(a, b, jobs);
    BuildIsPreservedIff(cmds, jobs);
    BothCounted(x, y, HasKey(KeyOf, KeyOf(x)));
    assert x in cmds && Shares(cmds, KeyOf, x) && !NamedAfterSource(x);
    j :| Count(CompileAll(Batched(cmds, jobs).value), Is(j)) != Count(CompileAll(cmds), Is(j));
  }

  lemma BothCounted<T>(x: T, y: T, f: T -> bool)
    requires f(x) && f(y)
    ensures Count([x, y], f) == 2
  {
    assert [x, y][1..] == [y] && [y][1..] == [];
    assert Count([y], f) == 1;
  }

  /** Two objects in the current directory, one of them not named after its source. */
  lemma BarePairChanges(first: Arg, x: string, second: Arg, y: string, jobs: nat)
    returns (cmds: seq<Command>, j: Job)
    requires IsInput(first) && IsInput(second)
    requires NoSep(x) && NoSep(y) && x != "" && y != "" && x != y && x != ObjectName(first)
    ensures Batched(cmds, jobs).Ok?
    ensures Count(CompileAll(Batched(cmds, jobs).value), Is(j)) != Count(CompileAll(cmds), Is(j))
  {
    PlainLineIsWellFormed(first, x);
    PlainLineIsWellFormed(second, y);
    BareFile(x);
    BareFile(y);
    NoDirectory(Dirname(x), ObjectName(first));
    cmds, j := MisnamedPairChanges(PlainLine(first, x), PlainLine(second, y), jobs);
  }

  lemma PlainLineIsWellFormed(input: Arg, output: string)
    requires IsInput(input)
    ensures WellFormed(PlainLine(input, output))
  {
    assert !IsInput("cl") && !IsOutput("cl");
  }

  lemma NoDirectory(dir: string, name: string)
    requires |dir| == 0
    ensures JoinEmpty(dir) + name == name
  {
  }

  /** A build that changes: `a.c` into `x.obj` and `b.c` into `y.obj`, with everything else the same. */
  lemma ABuildThatChanges(jobs: nat) returns (cmds: seq<Command>, j: Job)
    ensures Batched(cmds, jobs).Ok?
    ensures Count(CompileAll(Batched(cmds, jobs).value), Is(j)) != Count(CompileAll(cmds), Is(j))
  {
    NameOfAC();
    assert "x.obj"[0] != "y.obj"[0] && "x.obj"[0] != ("a" + ".obj")[0];
    cmds, j := BarePairChanges("/Tca.c", "x.obj", "/Tcb.c", "y.obj", jobs);
  }

  function PlainLine(input: Arg, output: string): Line {
    Line(["cl"], input, output, [])
  }

  lemma {:induction false} StemOf(n: string, extension: string)
    requires '.' !in extension
    ensures Stem(n + "." + extension) == n
  {
    var s := n + "." + extension;
    if extension == "" {
      assert s[|n|] == '.' && s[..|n|] == n;
    } else {
      var m := |extension| - 1;
      assert s[|n|] == '.' && s[|s| - 1] == extension[m];
      assert s[..|s| - 1] == n + "." + extension[..m];
      StemOf(n, extension[..m]);
    }
  }

  lemma ObjectNameOf(input: Arg, n: string, extension: string)
    requires |input| >= 3 && input[3..] == n + "." + extension
    requires NoSep(input[3..]) && '.' !in extension
    ensures ObjectName(input) == n + ".obj"
  {
    BareFile(input[3..]);
    StemOf(n, extension);
  }

  lemma NameOfAC()
    ensures ObjectName("/Tca.c") == "a" + ".obj"
  {
    assert "/Tca.c"[3..] == "a" + "." + "c";
    ObjectNameOf("/Tca.c", "a", "c");
  }

  /** A file name without separators has no directory. */
  lemma BareFile(n: string)
    requires NoSep(n) && n != ""
    ensures Basename(n) == n && |Dirname(n)| == 0 && !IsDirectory(n)
  {
    HeadOf([], n);
    assert [] + n == n;
  }

  /** A batch is refused exactly if a command is not of the expected shape, or two commands that differ
      in input or object only have objects of the same name. */
  lemma RefusedIff(cmds: seq<Command>, jobs: nat)
    ensures Batched(cmds, jobs).Err? <==> !Shaped(cmds) || exists i: nat, j: nat :: Clash(cmds, i, j)
  {
    FirstBadIff(cmds);
    if Shaped(cmds) {
      EmitRefusesIff(Groups(cmds, KeyOf), jobs);
      GroupsBelong(cmds);
      if g :| g in Groups(cmds, KeyOf) && Collides(g) {
        CollisionIsClash(cmds, g);
      }
      if i: nat, j: nat :| Clash(cmds, i, j) {
        ClashIsCollision(cmds, i, j);
      }
    }
  }

  /** Two commands, one behind the other, whose objects the collision check cannot tell apart. */
  ghost predicate Clash(cmds: seq<Command>, i: nat, j: nat) {
    i < j < |cmds| && KeyOf(cmds[i]) == KeyOf(cmds[j])
    && Basename(LineOf(cmds[i]).output) == Basename(LineOf(cmds[j]).output)
  }

  lemma {:induction false} EmitRefusesIff(gs: seq<Group>, jobs: nat)
    ensures Emit(gs, jobs).Err? <==> exists g :: g in gs && Collides(g)
  {
    if gs != [] {
      EmitRefusesIff(gs[1..], jobs);
      assert gs == [gs[0]] + gs[1..];
    }
  }

  lemma {:induction false} FilterPair<T>(s: seq<T>, f: T -> bool, i: nat, j: nat) returns (a: nat, b: nat)
    requires i < j < |Filter(s, f)|
    ensures a < b < |s| && s[a] == Filter(s, f)[i] && s[b] == Filter(s, f)[j]
  {
    if !f(s[0]) {
      a, b := FilterPair(s[1..], f, i, j);
      a, b := a + 1, b + 1;
    } else if i > 0 {
      a, b := FilterPair(s[1..], f, i - 1, j - 1);
      a, b := a + 1, b + 1;
    } else {
      b := FilterIndex(s[1..], f, j - 1);
      a, b := 0, b + 1;
    }
  }

  lemma {:induction false} FilterIndex<T>(s: seq<T>, f: T -> bool, j: nat) returns (b: nat)
    requires j < |Filter(s, f)|
    ensures b < |s| && s[b] == Filter(s, f)[j]
  {
    if !f(s[0]) {
      b := FilterIndex(s[1..], f, j);
      b := b + 1;
    } else if j > 0 {
      b := FilterIndex(s[1..], f, j - 1);
      b := b + 1;
    } else {
      b := 0;
    }
  }

  lemma {:induction false} IndexInFilter<T>(s: seq<T>, f: T -> bool, b: nat) returns (j: nat)
    requires b < |s| && f(s[b])
    ensures j < |Filter(s, f)| && Filter(s, f)[j] == s[b]
  {
    if b == 0 {
      j := 0;
    } else {
      j := IndexInFilter(s[1..], f, b - 1);
      j := if f(s[0]) then j + 1 else j;
    }
  }

  lemma {:induction false} PairInFilter<T>(s: seq<T>, f: T -> bool, a: nat, b: nat) returns (i: nat, j: nat)
    requires a < b < |s| && f(s[a]) && f(s[b])
    ensures i < j < |Filter(s, f)| && Filter(s, f)[i] == s[a] && Filter(s, f)[j] == s[b]
  {
    if a == 0 {
      j := IndexInFilter(s[1..], f, b - 1);
      i, j := 0, j + 1;
    } else {
      i, j := PairInFilter(s[1..], f, a - 1, b - 1);
      if f(s[0]) {
        i, j := i + 1, j + 1;
      }
    }
  }

  lemma BaseIs(c: Command, key: Key)
    requires Belongs(c, key)
    ensures ObjectBase(c, |key.head|) == Basename(LineOf(c).output)
  {
    ParseInverts(c);
    var l := LineOf(c);
    assert c[|key.head| + 1] == "/Fo" + l.output;
    assert Value("/Fo" + l.output) == l.output;
  }

  lemma CollisionIsClash(cmds: seq<Command>, g: Group)
    requires Shaped(cmds) && g in Groups(cmds, KeyOf) && Collides(g)
    ensures exists i: nat, j: nat :: Clash(cmds, i, j)
  {
    GroupsAreClasses(cmds, KeyOf);
    GroupsBelong(cmds);
    var i, j :| 0 <= i < j < |g.cmds|
      && ObjectBase(g.cmds[i], |g.key.head|) == ObjectBase(g.cmds[j], |g.key.head|);
    BaseIs(g.cmds[i], g.key);
    BaseIs(g.cmds[j], g.key);
    var a, b := FilterPair(cmds, HasKey(KeyOf, g.key), i, j);
    MembersHaveKey(cmds, KeyOf, g, g.cmds[i]);
    MembersHaveKey(cmds, KeyOf, g, g.cmds[j]);
    assert Clash(cmds, a, b);
  }

  lemma ClashIsCollision(cmds: seq<Command>, a: nat, b: nat)
    requires Shaped(cmds) && Clash(cmds, a, b)
    ensures exists g :: g in Groups(cmds, KeyOf) && Collides(g)
  {
    GroupsAreClasses(cmds, KeyOf);
    GroupsBelong(cmds);
    var gs := Groups(cmds, KeyOf);
    assert cmds[a] in cmds;
    var g := gs[FindKey(gs, KeyOf(cmds[a]))];
    assert g in gs;
    var i, j := PairInFilter(cmds, HasKey(KeyOf, g.key), a, b);
    BaseIs(g.cmds[i], g.key);
    BaseIs(g.cmds[j], g.key);
    assert ObjectBase(g.cmds[i], |g.key.head|) == ObjectBase(g.cmds[j], |g.key.head|);
  }

  /** Distinct objects in normalised directories are never refused. */
  lemma DistinctObjectsAreAccepted(cmds: seq<Command>, jobs: nat)
    requires Shaped(cmds)
    requires forall i, j | 0 <= i < j < |cmds| :: LineOf(cmds[i]).output != LineOf(cmds[j]).output
    requires forall c | c in cmds ::
               JoinEmpty(Dirname(LineOf(c).output)) + Basename(LineOf(c).output) == LineOf(c).output
    ensures Batched(cmds, jobs).Ok?
  {
    RefusedIff(cmds, jobs);
  }

  /** Each group becomes one command, in the order in which the groups were met, and that command compiles
      the commands of its key in the order in which they were given. */
  lemma GroupsInOrder(cmds: seq<Command>, jobs: nat, k: nat)
    requires Batched(cmds, jobs).Ok? && k < |Groups(cmds, KeyOf)|
    ensures var gs, out := Groups(cmds, KeyOf), Batched(cmds, jobs).value;
            var members := Filter(cmds, HasKey(KeyOf, gs[k].key));
            && |out| == |gs|
            && Compile(out[k]) == MapJobs(members, if |members| == 1 then Before else After)
  {
    FirstBadIff(cmds);
    GroupsBelong(cmds);
    GroupsAreClasses(cmds, KeyOf);
    EmitAt(Groups(cmds, KeyOf), jobs, k);
    var g := Groups(cmds, KeyOf)[k];
    assert g in Groups(cmds, KeyOf);
    GroupCompiles(g, jobs);
    RunOne(if |g.cmds| == 1 then g.cmds[0] else Merge(g, jobs), Compile);
    assert |g.cmds| == 1 ==> g.cmds == [g.cmds[0]];
  }

  lemma {:induction false} EmitAt(gs: seq<Group>, jobs: nat, k: nat)
    requires Emit(gs, jobs).Ok? && k < |gs|
    ensures |Emit(gs, jobs).value| == |gs|
    ensures Emit(gs, jobs).value[k] == if |gs[k].cmds| == 1 then gs[k].cmds[0] else Merge(gs[k], jobs)
  {
    if k > 0 {
      EmitAt(gs[1..], jobs, k - 1);
    } else if |gs| > 1 {
      EmitAt(gs[1..], jobs, 0);
    }
  }

  /* ---- The number of jobs ---- */

  /** What a digit stands for; 10 if it is none. */
  function Digit(c: char): nat {
    match c
    case '0' => 0
    case '1' => 1
    case '2' => 2
    case '3' => 3
    case '4' => 4
    case '5' => 5
    case '6' => 6
    case '7' => 7
    case '8' => 8
    case '9' => 9
    case _ => 10
  }

  /** The number that a text of digits reads as. */
  function Number(s: string): nat {
    if s == "" then 0 else 10 * Number(s[..|s| - 1]) + Digit(s[|s| - 1])
  }

  predicate IsNumeral(s: string) {
    s != "" && (forall i | 0 <= i < |s| :: Digit(s[i]) < 10) && (|s| > 1 ==> s[0] != '0')
  }

  lemma DigitIs(n: nat)
    requires n < 10
    ensures Digit((n as char) + '0') == n
  {
  }

  /** A number is written as the numeral that reads as it. */
  lemma {:induction false} DecimalIsNumeral(n: nat)
    ensures IsNumeral(Decimal(n)) && Number(Decimal(n)) == n
    ensures n > 0 ==> Decimal(n)[0] != '0'
  {
    if n < 10 {
      DigitIs(n);
      assert Decimal(n)[..0] == "";
    } else {
      DecimalIsNumeral(n / 10);
      DigitIs(n % 10);
      var front, last := Decimal(n / 10), (n % 10) as char + '0';
      assert Decimal(n) == front + [last] && Decimal(n)[..|front|] == front;
    }
  }

  lemma {:induction false} FilterInputs(cmds: seq<Command>, at: nat)
    requires forall i | 0 <= i < |cmds| :: IsInput(InputAt(cmds[i], at))
    ensures Filter(Inputs(cmds, at), IsMp) == []
  {
    if cmds != [] {
      FilterInputs(cmds[1..], at);
    }
  }

  /** A merged command asks cl for exactly as many jobs as were given, behind whatever its commands asked for. */
  lemma MergedAsksForJobs(g: Group, jobs: nat)
    requires forall i | 0 <= i < |g.cmds| :: IsInput(InputAt(g.cmds[i], |g.key.head|))
    requires Filter(g.key.head, IsMp) == [] && Filter(g.key.tail, IsMp) == []
    ensures exists n :: Filter(Merge(g, jobs), IsMp) == ["/MP" + n] && IsNumeral(n) && Number(n) == jobs
  {
    var n := Decimal(jobs);
    var inputs, out := Inputs(g.cmds, |g.key.head|), "/Fo" + JoinEmpty(g.key.dir);
    DecimalIsNumeral(jobs);
    FilterInputs(g.cmds, |g.key.head|);
    FilterConcat(g.key.head + ["/MP" + n] + inputs + [out], g.key.tail, IsMp);
    FilterConcat(g.key.head + ["/MP" + n] + inputs, [out], IsMp);
    FilterConcat(g.key.head + ["/MP" + n], inputs, IsMp);
    FilterConcat(g.key.head, ["/MP" + n], IsMp);
    OneFlag(n, JoinEmpty(g.key.dir));
  }

  lemma OneFlag(n: string, dir: string)
    ensures Filter(["/MP" + n], IsMp) == ["/MP" + n] && Filter(["/Fo" + dir], IsMp) == []
  {
    assert ["/MP" + n][1..] == [] && ["/Fo" + dir][1..] == [];
  }
}
