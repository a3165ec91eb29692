/** The cl.exe commands distutils prints for the sources of one extension, and the one command they become. */
module ExtensionBuild {
  import opened Wrappers
  import opened ClCommands
  import opened Grouping
  import opened Batching
  import opened MsvcCompiler
  import BatchTheorems

  /** A source file: the switch that says its language, its path, and the name of its object. */
  datatype Source = Source(kind: string, path: string, name: string)

  /** What all the commands of an extension agree in; the folder goes without its separator. */
  datatype Extension = Extension(head: Command, tail: Command, folder: string)

  predicate Begins(a: Arg, prefix: string) {
    |prefix| <= |a| && a[..|prefix|] == prefix
  }

  /** No argument names a source or an object. */
  predicate OptionsOnly(args: Command) {
    forall a | a in args :: !Begins(a, "/Tp") && !Begins(a, "/Tc") && !Begins(a, "/Fo")
  }

  predicate OneSeparator(sep: string) {
    sep == "/" || sep == "\\"
  }

  predicate IsExtension(e: Extension) {
    && OptionsOnly(e.head) && OptionsOnly(e.tail)
    && e.folder != "" && e.folder[|e.folder| - 1] != '/' && e.folder[|e.folder| - 1] != '\\'
  }

  predicate IsSource(s: Source) {
    (s.kind == "/Tp" || s.kind == "/Tc") && '/' !in s.name && '\\' !in s.name
  }

  predicate AreSources(sources: seq<Source>) {
    forall s | s in sources :: IsSource(s)
  }

  function Printed(e: Extension, sep: string, s: Source): Command {
    e.head + [s.kind + s.path, "/Fo" + (e.folder + sep + s.name)] + e.tail
  }

  function PrintAll(e: Extension, sep: string, sources: seq<Source>): seq<Command> {
    seq(|sources|, i requires 0 <= i < |sources| => Printed(e, sep, sources[i]))
  }

  function Arguments(sources: seq<Source>): seq<Arg> {
    seq(|sources|, i requires 0 <= i < |sources| => sources[i].kind + sources[i].path)
  }

  predicate DistinctObjects(sources: seq<Source>) {
    forall i, j | 0 <= i < j < |sources| :: sources[i].name != sources[j].name
  }

  /* ---- One command ---- */

  /** The arguments that begin with three given characters. */
  lemma Prefixes(a: Arg)
    ensures IsInput(a) <==> Begins(a, "/Tp") || Begins(a, "/Tc")
    ensures IsOutput(a) <==> Begins(a, "/Fo")
  {
    assert |a| >= 3 ==> a[..3] == [a[0], a[1], a[2]];
  }

  lemma OptionsArePlain(args: Command)
    ensures OptionsOnly(args) <==> Plain(args)
  {
    forall a | a in args ensures IsInput(a) || IsOutput(a) <==> Begins(a, "/Tp") || Begins(a, "/Tc") || Begins(a, "/Fo")
    {
      Prefixes(a);
    }
    if Plain(args) {
      forall a | a in args ensures !IsInput(a) && !IsOutput(a) {
        var i :| 0 <= i < |args| && args[i] == a;
      }
    } else {
      var i :| 0 <= i < |args| && (IsInput(args[i]) || IsOutput(args[i]));
      assert args[i] in args;
    }
  }

  lemma SourceArgument(s: Source)
    requires IsSource(s)
    ensures IsInput(s.kind + s.path) && NoSep(s.name)
  {
    assert (s.kind + s.path)[..3] == s.kind;
    Prefixes(s.kind + s.path);
  }

  /** A path is cut at its last separator, whichever of the two it is. */
  lemma PathParts(folder: string, sep: string, name: string)
    requires OneSeparator(sep) && NoSep(name)
    requires folder != "" && folder[|folder| - 1] != '/' && folder[|folder| - 1] != '\\'
    ensures Dirname(folder + sep + name) == folder && Basename(folder + sep + name) == name
    ensures JoinEmpty(folder) == folder + "\\"
  {
    var dir := folder + sep;
    BatchTheorems.HeadOf(dir, name);
    assert (dir + name)[..|dir|] == dir && (dir + name)[|dir|..] == name;
    assert dir[..|dir| - 1] == folder && RStrip(dir) == RStrip(folder) == folder;
  }

  lemma PrintedParts(e: Extension, sep: string, s: Source)
    requires IsExtension(e) && OneSeparator(sep) && IsSource(s)
    ensures var c := Printed(e, sep, s);
            && Parse(c).Some? && KeyOf(c) == Key(e.head, e.tail, e.folder)
            && InputAt(c, |e.head|) == s.kind + s.path && ObjectBase(c, |e.head|) == s.name
  {
    var l := Line(e.head, s.kind + s.path, e.folder + sep + s.name, e.tail);
    OptionsArePlain(e.head);
    OptionsArePlain(e.tail);
    SourceArgument(s);
    PathParts(e.folder, sep, s.name);
    ParseAccepts(l);
    LineParts(l);
    OutputArg(l.output);
  }

  /* ---- All of them ---- */

  lemma {:induction false} OneGroup(cmds: seq<Command>, key: Key, keyOf: Command -> Key)
    requires cmds != [] && forall i | 0 <= i < |cmds| :: keyOf(cmds[i]) == key
    ensures Groups(cmds, keyOf) == [Group(key, cmds)]
  {
    var n := |cmds| - 1;
    assert cmds == cmds[..n] + [cmds[n]];
    if n > 0 {
      OneGroup(cmds[..n], key, keyOf);
    }
  }

  lemma {:induction false} InputsAre(cmds: seq<Command>, at: nat, args: seq<Arg>)
    requires |cmds| == |args| && forall i | 0 <= i < |cmds| :: InputAt(cmds[i], at) == args[i]
    ensures Inputs(cmds, at) == args
  {
    if cmds != [] {
      InputsAre(cmds[1..], at, args[1..]);
    }
  }

  lemma EmitOne(g: Group, jobs: nat)
    ensures Emit([g], jobs) == if |g.cmds| != 1 && Collides(g) then Err(Collision(g.key.dir))
                               else Ok(GroupCommands(g, jobs))
  {
    assert Emit([], jobs) == Ok([]) && [g][1..] == [];
    assert GroupCommands(g, jobs) + [] == GroupCommands(g, jobs);
  }

  /** Commands of one key are merged, left alone or refused together. */
  lemma BatchedTogether(cmds: seq<Command>, key: Key, jobs: nat)
    requires cmds != [] && Shaped(cmds) && forall i | 0 <= i < |cmds| :: KeyOf(cmds[i]) == key
    ensures Batched(cmds, jobs)
            == if |cmds| != 1 && Collides(Group(key, cmds)) then Err(Collision(key.dir))
               else Ok(GroupCommands(Group(key, cmds), jobs))
  {
    FirstBadIff(cmds);
    OneGroup(cmds, key, KeyOf);
    EmitOne(Group(key, cmds), jobs);
  }

  lemma PrintedTogether(e: Extension, sep: string, sources: seq<Source>)
    requires IsExtension(e) && OneSeparator(sep) && AreSources(sources)
    ensures var cmds, key := PrintAll(e, sep, sources), Key(e.head, e.tail, e.folder);
            && Shaped(cmds) && (forall i | 0 <= i < |cmds| :: KeyOf(cmds[i]) == key)
            && Inputs(cmds, |e.head|) == Arguments(sources)
            && (Collides(Group(key, cmds)) <==> !DistinctObjects(sources))
  {
    var cmds, key := PrintAll(e, sep, sources), Key(e.head, e.tail, e.folder);
    forall i | 0 <= i < |cmds|
      ensures && Parse(cmds[i]).Some? && KeyOf(cmds[i]) == key && ObjectBase(cmds[i], |e.head|) == sources[i].name
              && InputAt(cmds[i], |e.head|) == Arguments(sources)[i]
    {
      PrintedParts(e, sep, sources[i]);
    }
    InputsAre(cmds, |e.head|, Arguments(sources));
    CollidesIff(Group(key, cmds), sources);
  }

  /** The commands of one extension become one: what they agree in, the number of jobs, their sources in their
      order, and the folder.  A single command stays as it is, and two objects of one name are refused. */
  lemma ExtensionMerges(e: Extension, sep: string, sources: seq<Source>, jobs: nat)
    requires IsExtension(e) && OneSeparator(sep) && sources != [] && AreSources(sources)
    ensures Batched(PrintAll(e, sep, sources), jobs)
            == if |sources| == 1 then Ok([Printed(e, sep, sources[0])])
               else if DistinctObjects(sources) then
                 Ok([e.head + ["/MP" + Decimal(jobs)] + Arguments(sources) + ["/Fo" + (e.folder + "\\")] + e.tail])
               else Err(Collision(e.folder))
  {
    var cmds, key := PrintAll(e, sep, sources), Key(e.head, e.tail, e.folder);
    PrintedTogether(e, sep, sources);
    BatchedTogether(cmds, key, jobs);
    PathParts(e.folder, sep, "");
    assert |cmds| == 1 ==> cmds == [Printed(e, sep, sources[0])];
  }

  lemma CollidesIff(g: Group, sources: seq<Source>)
    requires |g.cmds| == |sources|
    requires forall i | 0 <= i < |sources| :: ObjectBase(g.cmds[i], |g.key.head|) == sources[i].name
    ensures Collides(g) <==> !DistinctObjects(sources)
  {
    if !DistinctObjects(sources) {
      var i, j :| 0 <= i < j < |sources| && sources[i].name == sources[j].name;
      assert ObjectBase(g.cmds[i], |g.key.head|) == ObjectBase(g.cmds[j], |g.key.head|);
    }
  }

  /* ---- `compile` of an extension ---- */

  function Calls(cmds: seq<Command>, ok: bool): seq<Event> {
    if cmds == [] then [] else [Event.Call(cmds[0], ok)] + Calls(cmds[1..], ok)
  }

  lemma {:induction false} CollectsCalls(cc: string, cmds: seq<Command>, ok: bool)
    requires forall i | 0 <= i < |cmds| :: cmds[i] != [] && cmds[i][0] == cc
    ensures Collect(cc, Calls(cmds, ok)) == Collection(cmds, [], true)
  {
    if cmds != [] {
      CollectsCalls(cc, cmds[1..], ok);
      assert Calls(cmds, ok)[1..] == Calls(cmds[1..], ok);
    }
  }

  lemma RunsOne(cmd: Command, failsAt: Option<nat>)
    ensures RunFrom([cmd], 0, failsAt) == Build([Ran(cmd, failsAt != Some(0))], failsAt != Some(0))
  {
    assert [cmd][1..] == [];
    assert RunFrom([], 1, failsAt) == Build([], true);
  }

  /** `compile` of an extension whose sources are all counted starts one command and ends as it does; nothing
      starts if they are not, or if two objects have one name. */
  lemma ExtensionIsBuilt(e: Extension, sep: string, sources: seq<Source>, jobs: nat, expected: nat, ok: bool,
                         failsAt: Option<nat>)
    requires IsExtension(e) && OneSeparator(sep) && sources != [] && AreSources(sources)
    requires jobs != 1 && e.head != []
    ensures var all := Arguments(sources);
            var one := if |sources| == 1 then Printed(e, sep, sources[0])
                       else e.head + ["/MP" + Decimal(jobs)] + all + ["/Fo" + (e.folder + "\\")] + e.tail;
            var built := expected == |sources| && DistinctObjects(sources);
            CompilePlan(e.head[0], Calls(PrintAll(e, sep, sources), ok), expected, jobs, failsAt)
            == if built then Build([Ran(one, failsAt != Some(0))], failsAt != Some(0)) else Build([], false)
  {
    var cmds := PrintAll(e, sep, sources);
    CollectsCalls(e.head[0], cmds, ok);
    ExtensionMerges(e, sep, sources, jobs);
    if Batched(cmds, jobs).Ok? {
      RunsOne(Batched(cmds, jobs).value[0], failsAt);
    }
  }
}
