/** cl.exe command lines: the paths in them, the shape distutils gives them, and what cl does with one. */
module ClCommands {
  import opened Wrappers

  type Arg = string
  type Command = seq<Arg>

  /* ---- Paths, cut at the last separator ---- */

  predicate IsSep(c: char) {
    c == '\\' || c == '/'
  }

  predicate NoSep(s: string) {
    forall i | 0 <= i < |s| :: !IsSep(s[i])
  }

  /** The length of the path up to and with its last separator. */
  function HeadLength(p: string): (n: nat)
    ensures n <= |p|
  {
    if p == "" then 0 else if IsSep(p[|p| - 1]) then |p| else HeadLength(p[..|p| - 1])
  }

  function Basename(p: string): string {
    p[HeadLength(p)..]
  }

  function RStrip(s: string): string {
    if s == "" || !IsSep(s[|s| - 1]) then s else RStrip(s[..|s| - 1])
  }

  /** `os.path.dirname`: the trailing separators go, unless nothing else is there. */
  function Dirname(p: string): string {
    var head := p[..HeadLength(p)];
    if RStrip(head) == "" then head else RStrip(head)
  }

  predicate IsDirectory(p: string) {
    p == "" || IsSep(p[|p| - 1])
  }

  /** `os.path.join(d, "")`. */
  function JoinEmpty(d: string): string {
    if IsDirectory(d) then d else d + "\\"
  }

  /** A file name without its extension. */
  function Stem(n: string): string {
    if '.' !in n || n == "" then n else if n[|n| - 1] == '.' then n[..|n| - 1] else Stem(n[..|n| - 1])
  }

  /* ---- Arguments ---- */

  predicate Switch(a: Arg, first: char, second: char) {
    |a| >= 3 && a[0] == '/' && a[1] == first && a[2] == second
  }

  predicate IsInput(a: Arg) {
    Switch(a, 'T', 'p') || Switch(a, 'T', 'c')
  }

  predicate IsOutput(a: Arg) {
    Switch(a, 'F', 'o')
  }

  predicate IsMp(a: Arg) {
    Switch(a, 'M', 'P')
  }

  predicate IsFlag(a: Arg) {
    !IsInput(a) && !IsOutput(a) && !IsMp(a)
  }

  function Value(a: Arg): string {
    if |a| < 3 then "" else a[3..]
  }

  function Filter<T>(s: seq<T>, f: T -> bool): seq<T> {
    if s == [] then [] else if f(s[0]) then [s[0]] + Filter(s[1..], f) else Filter(s[1..], f)
  }

  /** Where along the command an argument of a kind stands. */
  function Positions(cmd: Command, f: Arg -> bool): seq<nat> {
    if cmd == [] then []
    else
      var n := |cmd| - 1;
      Positions(cmd[..n], f) + (if f(cmd[n]) then [n as nat] else [])
  }

  /** A command in the shape distutils gives it: one input with its object right behind it. */
  datatype Line = Line(head: Command, input: Arg, output: string, tail: Command)

  function ToCommand(l: Line): Command {
    l.head + [l.input, "/Fo" + l.output] + l.tail
  }

  predicate Plain(args: Command) {
    forall i | 0 <= i < |args| :: !IsInput(args[i]) && !IsOutput(args[i])
  }

  predicate WellFormed(l: Line) {
    Plain(l.head) && Plain(l.tail) && IsInput(l.input)
  }

  function Parse(cmd: Command): Option<Line> {
    var inputs := Positions(cmd, IsInput);
    var outputs := Positions(cmd, IsOutput);
    if |inputs| != 1 || outputs != [inputs[0] + 1] then None
    else
      PositionsAre(cmd, IsOutput, inputs[0] + 1);
      Some(Line(cmd[..inputs[0]], cmd[inputs[0]], Value(cmd[inputs[0] + 1]), cmd[inputs[0] + 2..]))
  }

  lemma {:induction false} PositionsAre(cmd: Command, f: Arg -> bool, k: nat)
    ensures k in Positions(cmd, f) <==> k < |cmd| && f(cmd[k])
  {
    if cmd != [] {
      PositionsAre(cmd[..|cmd| - 1], f, k);
    }
  }

  lemma {:induction false} NoPositions(cmd: Command, f: Arg -> bool)
    requires forall i | 0 <= i < |cmd| :: !f(cmd[i])
    ensures Positions(cmd, f) == []
  {
    if cmd != [] {
      NoPositions(cmd[..|cmd| - 1], f);
    }
  }

  lemma PositionsAppend(cmd: Command, a: Arg, f: Arg -> bool)
    ensures Positions(cmd + [a], f) == Positions(cmd, f) + if f(a) then [|cmd| as nat] else []
  {
    assert (cmd + [a])[..|cmd|] == cmd;
  }

  lemma {:induction false} PositionsBehind(cmd: Command, tail: Command, f: Arg -> bool)
    requires forall i | 0 <= i < |tail| :: !f(tail[i])
    ensures Positions(cmd + tail, f) == Positions(cmd, f)
  {
    if tail == [] {
      assert cmd + tail == cmd;
    } else {
      var n := |tail| - 1;
      assert cmd + tail == cmd + tail[..n] + [tail[n]];
      PositionsBehind(cmd, tail[..n], f);
      PositionsAppend(cmd + tail[..n], tail[n], f);
    }
  }

  lemma OnlyAt(cmd: Command, f: Arg -> bool, i: nat)
    requires Positions(cmd, f) == [i]
    ensures i < |cmd| && f(cmd[i])
    ensures forall k | 0 <= k < |cmd| && k != i :: !f(cmd[k])
  {
    PositionsAre(cmd, f, i);
    forall k | 0 <= k < |cmd| && k != i ensures !f(cmd[k]) {
      PositionsAre(cmd, f, k);
    }
  }

  /** What the two lists of positions say about the arguments. */
  lemma OneInput(cmd: Command, i: nat)
    requires Positions(cmd, IsInput) == [i] && Positions(cmd, IsOutput) == [i + 1]
    ensures i + 1 < |cmd| && IsInput(cmd[i]) && IsOutput(cmd[i + 1])
    ensures Plain(cmd[..i]) && Plain(cmd[i + 2..])
  {
    OnlyAt(cmd, IsInput, i);
    OnlyAt(cmd, IsOutput, i + 1);
  }

  /** The parser accepts exactly the printed well-formed lines, and recovers them. */
  lemma ParseInverts(cmd: Command)
    requires Parse(cmd).Some?
    ensures WellFormed(Parse(cmd).value) && ToCommand(Parse(cmd).value) == cmd
  {
    var i := Positions(cmd, IsInput)[0];
    assert Positions(cmd, IsInput) == [i];
    OneInput(cmd, i);
    assert cmd[i + 1] == "/Fo" + Value(cmd[i + 1]);
    assert cmd == cmd[..i] + [cmd[i], cmd[i + 1]] + cmd[i + 2..];
  }

  lemma PositionsOfPair(head: Command, x: Arg, y: Arg, f: Arg -> bool, first: seq<nat>, second: seq<nat>)
    requires Positions(head, f) == []
    requires first == if f(x) then [|head| as nat] else []
    requires second == if f(y) then [|head| as nat + 1] else []
    ensures Positions(head + [x] + [y], f) == first + second
  {
    PositionsAppend(head, x, f);
    PositionsAppend(head + [x], y, f);
    assert [] + first == first;
  }

  lemma PositionsOfParts(head: Command, x: Arg, y: Arg, tail: Command, f: Arg -> bool,
                         first: seq<nat>, second: seq<nat>)
    requires forall i | 0 <= i < |head| :: !f(head[i])
    requires forall i | 0 <= i < |tail| :: !f(tail[i])
    requires first == if f(x) then [|head| as nat] else []
    requires second == if f(y) then [|head| as nat + 1] else []
    ensures Positions(head + [x] + [y] + tail, f) == first + second
  {
    NoPositions(head, f);
    PositionsOfPair(head, x, y, f, first, second);
    PositionsBehind(head + [x] + [y], tail, f);
  }

  lemma LineParts(l: Line)
    ensures var cmd, out := ToCommand(l), "/Fo" + l.output;
            && cmd == l.head + [l.input] + [out] + l.tail
            && |cmd| > |l.head| + 1 && cmd[..|l.head|] == l.head && cmd[|l.head|] == l.input
            && cmd[|l.head| + 1] == out && cmd[|l.head| + 2..] == l.tail
  {
  }

  lemma OutputArg(output: string)
    ensures IsOutput("/Fo" + output) && !IsInput("/Fo" + output) && Value("/Fo" + output) == output
  {
  }

  lemma ParseAccepts(l: Line)
    requires WellFormed(l)
    ensures Parse(ToCommand(l)) == Some(l)
  {
    LineParts(l);
    OutputArg(l.output);
    PositionsOfParts(l.head, l.input, "/Fo" + l.output, l.tail, IsInput, [|l.head|], []);
    PositionsOfParts(l.head, l.input, "/Fo" + l.output, l.tail, IsOutput, [], [|l.head| + 1]);
  }

  /* ---- What cl does ---- */

  /** One source compiled: with which flags (all but /MP, which says nothing about the result), into
      which object. */
  datatype Job = Job(input: Arg, flags: Command, target: string)

  /** The name cl gives an object when told only the directory. */
  function ObjectName(input: Arg): string {
    Stem(Basename(Value(input))) + ".obj"
  }

  function ObjectPath(fo: string, input: Arg): string {
    if IsDirectory(fo) then fo + ObjectName(input) else fo
  }

  function JobsFor(inputs: seq<Arg>, flags: Command, fo: string): seq<Job> {
    if inputs == [] then [] else [Job(inputs[0], flags, ObjectPath(fo, inputs[0]))] + JobsFor(inputs[1..], flags, fo)
  }

  /** A cl run. Several inputs and an object that is not a directory are refused. */
  function RunCl(inputs: seq<Arg>, outputs: seq<Arg>, flags: Command): seq<Job> {
    var fo := if outputs == [] then "" else Value(outputs[|outputs| - 1]);
    if |inputs| > 1 && !IsDirectory(fo) then [] else JobsFor(inputs, flags, fo)
  }

  function Compile(cmd: Command): seq<Job> {
    RunCl(Filter(cmd, IsInput), Filter(cmd, IsOutput), Filter(cmd, IsFlag))
  }

  function RunAll(cmds: seq<Command>, run: Command -> seq<Job>): seq<Job> {
    if cmds == [] then [] else run(cmds[0]) + RunAll(cmds[1..], run)
  }

  /** The jobs of several cl runs, one after the other. */
  function CompileAll(cmds: seq<Command>): seq<Job> {
    RunAll(cmds, Compile)
  }
}
