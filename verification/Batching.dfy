/** The merging of per-source cl.exe command lines into fewer /MP runs. */
module Batching {
  import opened Wrappers
  import opened ClCommands
  import opened Grouping

  datatype Refusal = Shape(cmd: Command) | Collision(dir: string)

  /** The parsed line of a command; a line of nothing if the command is not of the expected shape. */
  function LineOf(cmd: Command): Line {
    if Parse(cmd).Some? then Parse(cmd).value else Line([], "", "", [])
  }

  function KeyOf(cmd: Command): Key {
    var l := LineOf(cmd);
    Key(l.head, l.tail, Dirname(l.output))
  }

  predicate Shaped(cmds: seq<Command>) {
    forall i | 0 <= i < |cmds| :: Parse(cmds[i]).Some?
  }

  /* ---- Emission ---- */

  /** The object's file name, as the collision check sees it. */
  function ObjectBase(cmd: Command, at: nat): string {
    if at + 1 < |cmd| then Basename(Value(cmd[at + 1])) else ""
  }

  predicate Collides(g: Group) {
    exists i, j :: 0 <= i < j < |g.cmds|
      && ObjectBase(g.cmds[i], |g.key.head|) == ObjectBase(g.cmds[j], |g.key.head|)
  }

  function InputAt(cmd: Command, at: nat): Arg {
    if at < |cmd| then cmd[at] else ""
  }

  function Inputs(cmds: seq<Command>, at: nat): seq<Arg> {
    if cmds == [] then [] else [InputAt(cmds[0], at)] + Inputs(cmds[1..], at)
  }

  function Decimal(n: nat): string {
    if n < 10 then [(n as char) + '0'] else Decimal(n / 10) + [((n % 10) as char) + '0']
  }

  function Merge(g: Group, jobs: nat): Command {
    g.key.head + ["/MP" + Decimal(jobs)] + Inputs(g.cmds, |g.key.head|) + ["/Fo" + JoinEmpty(g.key.dir)] + g.key.tail
  }

  /** A group of one stays as it is. */
  function GroupCommands(g: Group, jobs: nat): seq<Command> {
    if |g.cmds| == 1 then g.cmds else [Merge(g, jobs)]
  }

  function Behind(first: seq<Command>, r: Result<seq<Command>, Refusal>): Result<seq<Command>, Refusal> {
    match r
    case Ok(rest) => Ok(first + rest)
    case Err(e) => Err(e)
  }

  function Emit(gs: seq<Group>, jobs: nat): Result<seq<Command>, Refusal> {
    if gs == [] then Ok([])
    else if |gs[0].cmds| != 1 && Collides(gs[0]) then Err(Collision(gs[0].key.dir))
    else Behind(GroupCommands(gs[0], jobs), Emit(gs[1..], jobs))
  }

  function FirstBad(cmds: seq<Command>): Option<Command> {
    if cmds == [] then None else if Parse(cmds[0]) == None then Some(cmds[0]) else FirstBad(cmds[1..])
  }

  /** `list(_batch_compiles(commands, jobs))`. */
  function Batched(cmds: seq<Command>, jobs: nat): Result<seq<Command>, Refusal> {
    match FirstBad(cmds)
    case Some(cmd) => Err(Shape(cmd))
    case None => Emit(Groups(cmds, KeyOf), jobs)
  }

  lemma {:induction false} FirstBadIff(cmds: seq<Command>)
    ensures FirstBad(cmds) == None <==> Shaped(cmds)
  {
    if cmds != [] {
      FirstBadIff(cmds[1..]);
      assert cmds == [cmds[0]] + cmds[1..];
      if Shaped(cmds[1..]) && Parse(cmds[0]).Some? {
        forall i | 0 <= i < |cmds| ensures Parse(cmds[i]).Some? {
          assert i > 0 ==> cmds[i] == cmds[1..][i - 1];
        }
      } else if Parse(cmds[0]).Some? {
        var i :| 0 <= i < |cmds[1..]| && Parse(cmds[1..][i]) == None;
        assert Parse(cmds[i + 1]) == None;
      }
    }
  }

  /* ---- `_batch_compiles` itself ---- */

  lemma {:induction false} FirstBadAt(cmds: seq<Command>, n: nat)
    requires n < |cmds| && Shaped(cmds[..n]) && Parse(cmds[n]) == None
    ensures FirstBad(cmds) == Some(cmds[n])
  {
    if n > 0 {
      assert cmds[..n][0] == cmds[0];
      assert cmds[1..][..n - 1] == cmds[..n][1..];
      FirstBadAt(cmds[1..], n - 1);
    }
  }

  lemma BehindBehind(a: seq<Command>, b: seq<Command>, c: seq<Command>)
    ensures Behind(a, Ok(b + c)) == Ok(Behind(a, Ok(b)).value + c)
  {
    Reassociate(a, b, c);
  }

  lemma {:induction false} EmitOneMore(gs: seq<Group>, k: nat, jobs: nat)
    requires k < |gs| && Emit(gs[..k], jobs).Ok?
    ensures var g := gs[k];
            if |g.cmds| != 1 && Collides(g) then Emit(gs, jobs) == Err(Collision(g.key.dir))
            else Emit(gs[..k + 1], jobs) == Ok(Emit(gs[..k], jobs).value + GroupCommands(g, jobs))
  {
    if k > 0 {
      assert gs[..k][0] == gs[0] && gs[..k + 1][0] == gs[0];
      assert gs[1..][..k - 1] == gs[..k][1..] && gs[1..][..k] == gs[..k + 1][1..];
      EmitOneMore(gs[1..], k - 1, jobs);
      BehindBehind(GroupCommands(gs[0], jobs), Emit(gs[1..][..k - 1], jobs).value, GroupCommands(gs[k], jobs));
    } else {
      assert gs[..1] == [gs[0]] && [gs[0]][1..] == [];
      Reassociate(GroupCommands(gs[0], jobs), [], []);
    }
  }

  /** One command goes into its group. */
  method PutInGroup(groups: seq<Group>, cmd: Command) returns (r: Option<seq<Group>>)
    ensures r == if Parse(cmd) == None then None else Some(Insert(groups, KeyOf(cmd), cmd))
  {
    var inputs, outputs := Positions(cmd, IsInput), Positions(cmd, IsOutput);
    if |inputs| != 1 || outputs != [inputs[0] + 1] {
      return None;
    }
    PositionsAre(cmd, IsOutput, outputs[0]);
    var key := Key(cmd[..inputs[0]], cmd[outputs[0] + 1..], Dirname(Value(cmd[outputs[0]])));
    r := Some(Insert(groups, key, cmd));
  }

  /** The first loop: put each command into its group. */
  method CollectGroups(commands: seq<Command>) returns (r: Result<seq<Group>, Refusal>)
    ensures r == match FirstBad(commands) case Some(cmd) => Err(Shape(cmd)) case None => Ok(Groups(commands, KeyOf))
  {
    var groups: seq<Group> := [];
    for n := 0 to |commands|
      invariant Shaped(commands[..n])
      invariant groups == Groups(commands[..n], KeyOf)
    {
      var put := PutInGroup(groups, commands[n]);
      if put == None {
        FirstBadAt(commands, n);
        return Err(Shape(commands[n]));
      }
      OneMoreGroups(commands, n);
      groups := put.value;
    }
    assert commands[..|commands|] == commands;
    FirstBadIff(commands);
    r := Ok(groups);
  }

  lemma OneMoreGroups(commands: seq<Command>, n: nat)
    requires n < |commands| && Shaped(commands[..n]) && Parse(commands[n]).Some?
    ensures Shaped(commands[..n + 1])
    ensures Groups(commands[..n + 1], KeyOf) == Insert(Groups(commands[..n], KeyOf), KeyOf(commands[n]), commands[n])
  {
    GroupsAppend(commands[..n], commands[n], KeyOf);
    assert commands[..n + 1] == commands[..n] + [commands[n]];
    var begun := commands[..n + 1];
    forall i | 0 <= i < |begun| ensures Parse(begun[i]).Some? {
      assert i < n ==> begun[i] == commands[..n][i];
    }
  }

  /** The second loop: one command per group. */
  method EmitGroups(groups: seq<Group>, jobs: nat) returns (r: Result<seq<Command>, Refusal>)
    ensures r == Emit(groups, jobs)
  {
    var batches: seq<Command> := [];
    for k := 0 to |groups|
      invariant Emit(groups[..k], jobs) == Ok(batches)
    {
      var g := groups[k];
      EmitOneMore(groups, k, jobs);
      if |g.cmds| == 1 {
        batches := batches + g.cmds;
      } else if Collides(g) {
        return Err(Collision(g.key.dir));
      } else {
        batches := batches + [Merge(g, jobs)];
      }
    }
    assert groups[..|groups|] == groups;
    r := Ok(batches);
  }

  method BatchCompiles(commands: seq<Command>, jobs: nat) returns (r: Result<seq<Command>, Refusal>)
    ensures r == Batched(commands, jobs)
  {
    var groups := CollectGroups(commands);
    if groups.Err? {
      return Err(groups.error);
    }
    r := EmitGroups(groups.value, jobs);
  }

  /* ---- What the merged commands compile ---- */

  function FlagsOf(l: Line): Command {
    Filter(l.head + l.tail, IsFlag)
  }

  /** The job of a command on its own. */
  function Before(cmd: Command): Job {
    var l := LineOf(cmd);
    Job(l.input, FlagsOf(l), ObjectPath(l.output, l.input))
  }

  /** The job of a command inside a merged one: cl is told only the directory. */
  function After(cmd: Command): Job {
    var l := LineOf(cmd);
    Job(l.input, FlagsOf(l), JoinEmpty(Dirname(l.output)) + ObjectName(l.input))
  }

  /** The object is where cl itself would put it: in a normalised directory, named after the source. */
  predicate NamedAfterSource(cmd: Command) {
    var l := LineOf(cmd);
    ObjectPath(l.output, l.input) == JoinEmpty(Dirname(l.output)) + ObjectName(l.input)
  }

  lemma {:induction false} PlainFilters(args: Command)
    requires Plain(args)
    ensures Filter(args, IsInput) == [] && Filter(args, IsOutput) == []
  {
    if args != [] {
      PlainFilters(args[1..]);
    }
  }

  lemma FilterOne<T>(x: T, f: T -> bool)
    ensures Filter([x], f) == if f(x) then [x] else []
  {
  }

  lemma FilterFour<T>(a: seq<T>, b: seq<T>, c: seq<T>, d: seq<T>, f: T -> bool)
    ensures Filter(a + b + c + d, f) == Filter(a, f) + Filter(b, f) + Filter(c, f) + Filter(d, f)
  {
    FilterConcat(a + b + c, d, f);
    FilterConcat(a + b, c, f);
    FilterConcat(a, b, f);
  }

  /** What the three kinds of arguments of a line's command are. */
  lemma LineFilters(l: Line)
    requires WellFormed(l)
    ensures Filter(ToCommand(l), IsInput) == [l.input]
    ensures Filter(ToCommand(l), IsOutput) == ["/Fo" + l.output]
    ensures Filter(ToCommand(l), IsFlag) == FlagsOf(l)
  {
    var out := "/Fo" + l.output;
    OutputArg(l.output);
    LineParts(l);
    PlainFilters(l.head);
    PlainFilters(l.tail);
    FilterFour(l.head, [l.input], [out], l.tail, IsInput);
    FilterFour(l.head, [l.input], [out], l.tail, IsOutput);
    FilterFour(l.head, [l.input], [out], l.tail, IsFlag);
    FilterConcat(l.head, l.tail, IsFlag);
    assert Filter(l.head, IsFlag) + [] + [] + Filter(l.tail, IsFlag) == FlagsOf(l);
  }

  lemma CompileOne(cmd: Command)
    requires Parse(cmd).Some?
    ensures Compile(cmd) == [Before(cmd)]
  {
    ParseInverts(cmd);
    var l := LineOf(cmd);
    LineFilters(l);
    OutputArg(l.output);
    assert JobsFor([l.input], FlagsOf(l), l.output) == [Before(cmd)];
  }
}
