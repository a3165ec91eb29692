/** The `groups` dictionary of the batcher: commands by key, in insertion order, and what replacing the
    jobs of the larger groups does to the whole. What the keys and jobs are does not matter here. */
module Grouping {
  import opened Counting
  import opened ClCommands

  datatype Key = Key(head: Command, tail: Command, dir: string)

  /** An entry of the `groups` dictionary. */
  datatype Group = Group(key: Key, cmds: seq<Command>)

  /* ---- The dictionary, in insertion order ---- */

  function FindKey(gs: seq<Group>, key: Key): (i: nat)
    ensures i <= |gs|
    ensures i < |gs| ==> gs[i].key == key
    ensures forall k | 0 <= k < i :: gs[k].key != key
  {
    if gs == [] then 0 else if gs[0].key == key then 0 else 1 + FindKey(gs[1..], key)
  }

  /** `groups.setdefault(key, []).append(cmd)`. */
  function Insert(gs: seq<Group>, key: Key, cmd: Command): seq<Group> {
    var i := FindKey(gs, key);
    if i < |gs| then gs[i := Group(key, gs[i].cmds + [cmd])] else gs + [Group(key, [cmd])]
  }

  /** The dictionary after the commands have gone in, one by one. */
  function Groups(cmds: seq<Command>, keyOf: Command -> Key): seq<Group> {
    if cmds == [] then []
    else
      var n := |cmds| - 1;
      Insert(Groups(cmds[..n], keyOf), keyOf(cmds[n]), cmds[n])
  }

  /* ---- The groups are the classes of the key ---- */

  function HasKey(keyOf: Command -> Key, key: Key): Command -> bool {
    cmd => keyOf(cmd) == key
  }

  predicate DistinctKeys(gs: seq<Group>) {
    forall i, j | 0 <= i < j < |gs| :: gs[i].key != gs[j].key
  }

  lemma {:induction false} FilterConcat<T>(s: seq<T>, t: seq<T>, f: T -> bool)
    ensures Filter(s + t, f) == Filter(s, f) + Filter(t, f)
  {
    if s == [] {
      assert s + t == t;
    } else {
      FilterConcat(s[1..], t, f);
      assert (s + t)[1..] == s[1..] + t;
    }
  }

  lemma FilterAppend<T>(s: seq<T>, x: T, f: T -> bool)
    ensures Filter(s + [x], f) == if f(x) then Filter(s, f) + [x] else Filter(s, f)
  {
    FilterConcat(s, [x], f);
    assert Filter([x], f) == if f(x) then [x] else [];
  }

  lemma {:induction false} FilterLength<T>(s: seq<T>, f: T -> bool)
    ensures |Filter(s, f)| == Count(s, f)
  {
    if s != [] {
      FilterLength(s[1..], f);
    }
  }

  lemma {:induction false} FilterKeeps<T>(s: seq<T>, f: T -> bool, i: nat)
    requires i < |Filter(s, f)|
    ensures f(Filter(s, f)[i]) && Filter(s, f)[i] in s
  {
    if f(s[0]) {
      if i > 0 {
        FilterKeeps(s[1..], f, i - 1);
      }
    } else {
      FilterKeeps(s[1..], f, i);
    }
  }

  /** Each group holds, in their order, exactly the commands of its key. */
  ghost predicate Filtered(gs: seq<Group>, cmds: seq<Command>, keyOf: Command -> Key) {
    forall i | 0 <= i < |gs| :: gs[i].cmds != [] && gs[i].cmds == Filter(cmds, HasKey(keyOf, gs[i].key))
  }

  /** No command is left without a group. */
  ghost predicate Covers(gs: seq<Group>, cmds: seq<Command>, keyOf: Command -> Key) {
    forall c | c in cmds :: FindKey(gs, keyOf(c)) < |gs|
  }

  lemma NoneFiltered<T>(s: seq<T>, f: T -> bool)
    requires forall x | x in s :: !f(x)
    ensures Filter(s, f) == []
  {
    if |Filter(s, f)| > 0 {
      FilterKeeps(s, f, 0);
    }
  }

  lemma InsertKeepsFound(gs: seq<Group>, key: Key, cmd: Command, other: Key)
    requires FindKey(gs, other) < |gs| || other == key
    ensures FindKey(Insert(gs, key, cmd), other) < |Insert(gs, key, cmd)|
  {
    var hs := Insert(gs, key, cmd);
    if other == key {
      assert hs[FindKey(gs, key)].key == key;
    } else {
      assert hs[FindKey(gs, other)].key == other;
    }
  }

  lemma InsertCovers(gs: seq<Group>, cmds: seq<Command>, key: Key, cmd: Command, keyOf: Command -> Key)
    requires Covers(gs, cmds, keyOf) && key == keyOf(cmd)
    ensures Covers(Insert(gs, key, cmd), cmds + [cmd], keyOf)
  {
    forall c | c in cmds + [cmd] ensures FindKey(Insert(gs, key, cmd), keyOf(c)) < |Insert(gs, key, cmd)| {
      InsertKeepsFound(gs, key, cmd, keyOf(c));
    }
  }

  /** A group with its command list extended if the command is of its key. */
  lemma FilteredOneMore(cmds: seq<Command>, cmd: Command, key: Key, g: Group, keyOf: Command -> Key)
    requires g.cmds == Filter(cmds, HasKey(keyOf, g.key)) && key == keyOf(cmd)
    ensures Filter(cmds + [cmd], HasKey(keyOf, g.key)) == if g.key == key then g.cmds + [cmd] else g.cmds
  {
    FilterAppend(cmds, cmd, HasKey(keyOf, g.key));
  }

  lemma FilteredNew(cmds: seq<Command>, cmd: Command, key: Key, keyOf: Command -> Key)
    requires key == keyOf(cmd) && (forall c | c in cmds :: keyOf(c) != key)
    ensures Filter(cmds + [cmd], HasKey(keyOf, key)) == [cmd]
  {
    FilterAppend(cmds, cmd, HasKey(keyOf, key));
    NoneFiltered(cmds, HasKey(keyOf, key));
  }

  lemma InsertDistinct(gs: seq<Group>, key: Key, cmd: Command)
    requires DistinctKeys(gs)
    ensures DistinctKeys(Insert(gs, key, cmd))
  {
  }

  lemma InsertFilters(gs: seq<Group>, cmds: seq<Command>, key: Key, cmd: Command, keyOf: Command -> Key)
    requires DistinctKeys(gs) && Filtered(gs, cmds, keyOf) && Covers(gs, cmds, keyOf) && key == keyOf(cmd)
    ensures Filtered(Insert(gs, key, cmd), cmds + [cmd], keyOf)
  {
    var hs := Insert(gs, key, cmd);
    forall i | 0 <= i < |hs| ensures hs[i].cmds != [] && hs[i].cmds == Filter(cmds + [cmd], HasKey(keyOf, hs[i].key)) {
      if i == |gs| {
        FilteredNew(cmds, cmd, key, keyOf);
      } else {
        FilteredOneMore(cmds, cmd, key, gs[i], keyOf);
      }
    }
  }

  /** The groups are the classes of commands that agree in everything but input and object name: their
      keys are distinct, and each holds the commands of its key in their order. */
  lemma {:induction false} GroupsAreClasses(cmds: seq<Command>, keyOf: Command -> Key)
    ensures var gs := Groups(cmds, keyOf); DistinctKeys(gs) && Filtered(gs, cmds, keyOf) && Covers(gs, cmds, keyOf)
  {
    if cmds != [] {
      LastPut(cmds);
      var n := |cmds| - 1;
      GroupsAreClasses(cmds[..n], keyOf);
      ClassesOneMore(cmds[..n], cmds[n], keyOf);
    }
  }

  lemma LastPut(cmds: seq<Command>)
    requires cmds != []
    ensures cmds[..|cmds| - 1] + [cmds[|cmds| - 1]] == cmds
  {
  }

  lemma ClassesOneMore(rest: seq<Command>, last: Command, keyOf: Command -> Key)
    requires var gs := Groups(rest, keyOf); DistinctKeys(gs) && Filtered(gs, rest, keyOf) && Covers(gs, rest, keyOf)
    ensures var gs := Groups(rest + [last], keyOf);
            DistinctKeys(gs) && Filtered(gs, rest + [last], keyOf) && Covers(gs, rest + [last], keyOf)
  {
    GroupsAppend(rest, last, keyOf);
    InsertDistinct(Groups(rest, keyOf), keyOf(last), last);
    InsertCovers(Groups(rest, keyOf), rest, keyOf(last), last, keyOf);
    InsertFilters(Groups(rest, keyOf), rest, keyOf(last), last, keyOf);
  }

  lemma GroupsAppend(rest: seq<Command>, last: Command, keyOf: Command -> Key)
    ensures Groups(rest + [last], keyOf) == Insert(Groups(rest, keyOf), keyOf(last), last)
  {
    assert (rest + [last])[..|rest|] == rest;
  }

  /** The number of the first command of a key. */
  function FirstOf(cmds: seq<Command>, keyOf: Command -> Key, key: Key): (i: nat)
    ensures i <= |cmds|
    ensures i < |cmds| ==> keyOf(cmds[i]) == key
    ensures forall k | 0 <= k < i :: keyOf(cmds[k]) != key
  {
    if cmds == [] then 0 else if keyOf(cmds[0]) == key then 0 else 1 + FirstOf(cmds[1..], keyOf, key)
  }

  lemma FirstOfLonger(cmds: seq<Command>, last: Command, keyOf: Command -> Key, key: Key)
    ensures FirstOf(cmds, keyOf, key) < |cmds| ==> FirstOf(cmds + [last], keyOf, key) == FirstOf(cmds, keyOf, key)
    ensures FirstOf(cmds, keyOf, key) == |cmds| && keyOf(last) == key ==> FirstOf(cmds + [last], keyOf, key) == |cmds|
  {
    var i, j := FirstOf(cmds, keyOf, key), FirstOf(cmds + [last], keyOf, key);
    assert forall k | 0 <= k < |cmds| :: (cmds + [last])[k] == cmds[k];
    assert (cmds + [last])[|cmds|] == last;
    assert j < |cmds| ==> keyOf(cmds[j]) == key;
  }

  /** The groups stand in the order in which their first commands were met. */
  ghost predicate AsMet(gs: seq<Group>, cmds: seq<Command>, keyOf: Command -> Key) {
    && (forall i | 0 <= i < |gs| :: FirstOf(cmds, keyOf, gs[i].key) < |cmds|)
    && (forall i, j | 0 <= i < j < |gs| :: FirstOf(cmds, keyOf, gs[i].key) < FirstOf(cmds, keyOf, gs[j].key))
  }

  lemma {:induction false} GroupsAreAsMet(cmds: seq<Command>, keyOf: Command -> Key)
    ensures AsMet(Groups(cmds, keyOf), cmds, keyOf)
  {
    if cmds != [] {
      LastPut(cmds);
      var n := |cmds| - 1;
      GroupsAreAsMet(cmds[..n], keyOf);
      GroupsAreClasses(cmds[..n], keyOf);
      GroupsAppend(cmds[..n], cmds[n], keyOf);
      InsertAsMet(Groups(cmds[..n], keyOf), cmds[..n], cmds[n], keyOf);
    }
  }

  lemma NotMet(gs: seq<Group>, rest: seq<Command>, keyOf: Command -> Key, key: Key)
    requires Covers(gs, rest, keyOf) && FindKey(gs, key) == |gs|
    ensures FirstOf(rest, keyOf, key) == |rest|
  {
    forall k | 0 <= k < |rest| ensures keyOf(rest[k]) != key {
      assert rest[k] in rest && FindKey(gs, keyOf(rest[k])) < |gs|;
    }
  }

  lemma LongerAsMet(gs: seq<Group>, rest: seq<Command>, last: Command, keyOf: Command -> Key)
    requires AsMet(gs, rest, keyOf)
    ensures AsMet(gs, rest + [last], keyOf)
    ensures forall i | 0 <= i < |gs| :: FirstOf(rest + [last], keyOf, gs[i].key) < |rest|
  {
    forall i | 0 <= i < |gs|
      ensures FirstOf(rest + [last], keyOf, gs[i].key) == FirstOf(rest, keyOf, gs[i].key) < |rest|
    {
      FirstOfLonger(rest, last, keyOf, gs[i].key);
    }
  }

  lemma UpdateAsMet(gs: seq<Group>, i: nat, g: Group, cmds: seq<Command>, keyOf: Command -> Key)
    requires AsMet(gs, cmds, keyOf) && i < |gs| && g.key == gs[i].key
    ensures AsMet(gs[i := g], cmds, keyOf)
  {
    assert forall k | 0 <= k < |gs| :: gs[i := g][k].key == gs[k].key;
  }

  lemma AppendAsMet(gs: seq<Group>, g: Group, cmds: seq<Command>, keyOf: Command -> Key)
    requires AsMet(gs, cmds, keyOf) && FirstOf(cmds, keyOf, g.key) < |cmds|
    requires forall i | 0 <= i < |gs| :: FirstOf(cmds, keyOf, gs[i].key) < FirstOf(cmds, keyOf, g.key)
    ensures AsMet(gs + [g], cmds, keyOf)
  {
  }

  lemma InsertAsMet(gs: seq<Group>, rest: seq<Command>, last: Command, keyOf: Command -> Key)
    requires AsMet(gs, rest, keyOf) && Covers(gs, rest, keyOf)
    ensures AsMet(Insert(gs, keyOf(last), last), rest + [last], keyOf)
  {
    var key := keyOf(last);
    var i := FindKey(gs, key);
    LongerAsMet(gs, rest, last, keyOf);
    if i < |gs| {
      UpdateAsMet(gs, i, Group(key, gs[i].cmds + [last]), rest + [last], keyOf);
    } else {
      NotMet(gs, rest, keyOf, key);
      FirstOfLonger(rest, last, keyOf, key);
      AppendAsMet(gs, Group(key, [last]), rest + [last], keyOf);
    }
  }

  lemma TailOfConcat<T>(a: seq<T>, b: seq<T>)
    requires a != []
    ensures (a + b)[0] == a[0] && (a + b)[1..] == a[1..] + b && a + b != []
  {
  }

  lemma Reassociate<T>(a: seq<T>, b: seq<T>, c: seq<T>)
    ensures a + b + c == a + (b + c) && a + [] == a && [] + a == a
  {
  }

  /* ---- Replacing jobs group by group ---- */

  function MapJobs(cmds: seq<Command>, job: Command -> Job): seq<Job> {
    if cmds == [] then [] else [job(cmds[0])] + MapJobs(cmds[1..], job)
  }

  /** The jobs of all groups: those of a single command stay, those of a larger group are replaced. */
  function GroupJobs(gs: seq<Group>, before: Command -> Job, after: Command -> Job): seq<Job> {
    if gs == [] then []
    else MapJobs(gs[0].cmds, if |gs[0].cmds| == 1 then before else after) + GroupJobs(gs[1..], before, after)
  }

  function Flat(gs: seq<Group>): seq<Command> {
    if gs == [] then [] else gs[0].cmds + Flat(gs[1..])
  }

  /** A command that shares its key with another. */
  predicate Shares(cmds: seq<Command>, keyOf: Command -> Key, c: Command) {
    Count(cmds, HasKey(keyOf, keyOf(c))) >= 2
  }

  /** The job of a command in the batched build. */
  function Effective(cmds: seq<Command>, keyOf: Command -> Key, before: Command -> Job, after: Command -> Job)
    : Command -> Job
  {
    c => if Shares(cmds, keyOf, c) then after(c) else before(c)
  }

  function Yields(job: Command -> Job, j: Job): Command -> bool {
    c => job(c) == j
  }

  lemma {:induction false} FlatConcat(gs: seq<Group>, hs: seq<Group>)
    ensures Flat(gs + hs) == Flat(gs) + Flat(hs)
  {
    if gs == [] {
      assert gs + hs == hs;
    } else {
      FlatConcat(gs[1..], hs);
      TailOfConcat(gs, hs);
      Reassociate(gs[0].cmds, Flat(gs[1..]), Flat(hs));
    }
  }

  lemma FlatInsert(gs: seq<Group>, key: Key, cmd: Command, f: Command -> bool)
    ensures Count(Flat(Insert(gs, key, cmd)), f) == Count(Flat(gs), f) + Unit(f(cmd))
  {
    var i := FindKey(gs, key);
    if i < |gs| {
      var g := Group(key, gs[i].cmds + [cmd]);
      FlatAt(gs, i, f);
      FlatAt(gs[i := g], i, f);
      assert gs[i := g][..i] == gs[..i] && gs[i := g][i + 1..] == gs[i + 1..];
      CountAppend(gs[i].cmds, cmd, f);
    } else {
      FlatConcat(gs, [Group(key, [cmd])]);
      assert Flat([Group(key, [cmd])]) == [cmd];
      CountAppend(Flat(gs), cmd, f);
    }
  }

  lemma FlatAt(gs: seq<Group>, i: nat, f: Command -> bool)
    requires i < |gs|
    ensures Count(Flat(gs), f) == Count(Flat(gs[..i]), f) + Count(gs[i].cmds, f) + Count(Flat(gs[i + 1..]), f)
  {
    assert gs == gs[..i] + gs[i..];
    FlatConcat(gs[..i], gs[i..]);
    CountConcat(Flat(gs[..i]), Flat(gs[i..]), f);
    CountConcat(gs[i].cmds, Flat(gs[i + 1..]), f);
    assert gs[i..][1..] == gs[i + 1..];
  }

  /** Grouping neither loses nor repeats a command. */
  lemma {:induction false} GroupingConserves(cmds: seq<Command>, keyOf: Command -> Key, f: Command -> bool)
    ensures Count(Flat(Groups(cmds, keyOf)), f) == Count(cmds, f)
  {
    if cmds != [] {
      var n := |cmds| - 1;
      GroupingConserves(cmds[..n], keyOf, f);
      FlatInsert(Groups(cmds[..n], keyOf), keyOf(cmds[n]), cmds[n], f);
      CountAppend(cmds[..n], cmds[n], f);
      LastPut(cmds);
    }
  }

  lemma {:induction false} MapJobsConcat(a: seq<Command>, b: seq<Command>, job: Command -> Job)
    ensures MapJobs(a + b, job) == MapJobs(a, job) + MapJobs(b, job)
  {
    if a == [] {
      assert a + b == b;
    } else {
      MapJobsConcat(a[1..], b, job);
      TailOfConcat(a, b);
      Reassociate([job(a[0])], MapJobs(a[1..], job), MapJobs(b, job));
    }
  }

  lemma {:induction false} MapJobsSame(a: seq<Command>, job: Command -> Job, other: Command -> Job)
    requires forall c | c in a :: job(c) == other(c)
    ensures MapJobs(a, job) == MapJobs(a, other)
  {
    if a != [] {
      assert a[0] in a;
      MapJobsSame(a[1..], job, other);
    }
  }

  lemma {:induction false} CountJobs(cmds: seq<Command>, job: Command -> Job, j: Job)
    ensures Count(MapJobs(cmds, job), Is(j)) == Count(cmds, Yields(job, j))
  {
    if cmds != [] {
      CountJobs(cmds[1..], job, j);
    }
  }

  /** Every group is as large as the class of its commands. */
  ghost predicate Sized(gs: seq<Group>, cmds: seq<Command>, keyOf: Command -> Key) {
    forall g | g in gs :: g.cmds != [] && (forall c | c in g.cmds :: Shares(cmds, keyOf, c) <==> |g.cmds| != 1)
  }

  lemma GroupsAreSized(cmds: seq<Command>, keyOf: Command -> Key)
    ensures Sized(Groups(cmds, keyOf), cmds, keyOf)
  {
    GroupsAreClasses(cmds, keyOf);
    forall g | g in Groups(cmds, keyOf)
      ensures g.cmds != [] && (forall c | c in g.cmds :: Shares(cmds, keyOf, c) <==> |g.cmds| != 1)
    {
      FilterLength(cmds, HasKey(keyOf, g.key));
      forall c | c in g.cmds ensures keyOf(c) == g.key {
        MembersHaveKey(cmds, keyOf, g, c);
      }
    }
  }

  lemma MembersHaveKey(cmds: seq<Command>, keyOf: Command -> Key, g: Group, c: Command)
    requires g.cmds == Filter(cmds, HasKey(keyOf, g.key)) && c in g.cmds
    ensures keyOf(c) == g.key && c in cmds
  {
    var i :| 0 <= i < |g.cmds| && g.cmds[i] == c;
    FilterKeeps(cmds, HasKey(keyOf, g.key), i);
  }

  lemma {:induction false} GroupJobsAre(gs: seq<Group>, cmds: seq<Command>, keyOf: Command -> Key,
                                        before: Command -> Job, after: Command -> Job)
    requires Sized(gs, cmds, keyOf)
    ensures GroupJobs(gs, before, after) == MapJobs(Flat(gs), Effective(cmds, keyOf, before, after))
    decreases |gs|
  {
    if gs != [] {
      var job := Effective(cmds, keyOf, before, after);
      assert gs[0] in gs;
      MapJobsSame(gs[0].cmds, job, if |gs[0].cmds| == 1 then before else after);
      GroupJobsAre(gs[1..], cmds, keyOf, before, after);
      MapJobsConcat(gs[0].cmds, Flat(gs[1..]), job);
    }
  }

  /** The batched build has, for every job, as many as commands whose effective job it is. */
  lemma BatchedJobs(cmds: seq<Command>, keyOf: Command -> Key, before: Command -> Job, after: Command -> Job, j: Job)
    ensures Count(GroupJobs(Groups(cmds, keyOf), before, after), Is(j))
            == Count(cmds, Yields(Effective(cmds, keyOf, before, after), j))
  {
    var job := Effective(cmds, keyOf, before, after);
    GroupsAreSized(cmds, keyOf);
    GroupJobsAre(Groups(cmds, keyOf), cmds, keyOf, before, after);
    CountJobs(Flat(Groups(cmds, keyOf)), job, j);
    GroupingConserves(cmds, keyOf, Yields(job, j));
  }

  lemma {:induction false} CountMonotone<T>(s: seq<T>, f: T -> bool, g: T -> bool)
    requires forall x | x in s :: f(x) ==> g(x)
    ensures Count(s, f) <= Count(s, g)
    ensures Count(s, f) == Count(s, g) ==> forall x | x in s :: f(x) == g(x)
  {
    if s != [] {
      assert s[0] in s;
      CountMonotone(s[1..], f, g);
      if Count(s, f) == Count(s, g) {
        forall x | x in s ensures f(x) == g(x) {
          assert x == s[0] || x in s[1..];
        }
      }
    }
  }

  lemma {:induction false} CountSame<T>(s: seq<T>, f: T -> bool, g: T -> bool)
    requires forall x | x in s :: f(x) == g(x)
    ensures Count(s, f) == Count(s, g)
  {
    CountMonotone(s, f, g);
    CountMonotone(s, g, f);
  }

  /** Replacing a job never yields a job that is replaced again. */
  ghost predicate Settled(cmds: seq<Command>, before: Command -> Job, after: Command -> Job) {
    forall c, d | c in cmds && d in cmds && before(c) == after(d) :: after(c) == after(d)
  }

  /** Batching keeps every job as often as before exactly if it changes the job of no command. */
  lemma BatchingKeepsJobsIff(cmds: seq<Command>, keyOf: Command -> Key, before: Command -> Job, after: Command -> Job)
    requires Settled(cmds, before, after)
    ensures (forall j: Job :: Count(GroupJobs(Groups(cmds, keyOf), before, after), Is(j))
                              == Count(MapJobs(cmds, before), Is(j)))
            <==> (forall c | c in cmds && Shares(cmds, keyOf, c) :: before(c) == after(c))
  {
    var job := Effective(cmds, keyOf, before, after);
    var all := GroupJobs(Groups(cmds, keyOf), before, after);
    if forall c | c in cmds && Shares(cmds, keyOf, c) :: before(c) == after(c) {
      forall j: Job ensures Count(all, Is(j)) == Count(MapJobs(cmds, before), Is(j)) {
        BatchedJobs(cmds, keyOf, before, after, j);
        CountJobs(cmds, before, j);
        CountSame(cmds, Yields(job, j), Yields(before, j));
      }
    } else {
      var c :| c in cmds && Shares(cmds, keyOf, c) && before(c) != after(c);
      var j := after(c);
      BatchedJobs(cmds, keyOf, before, after, j);
      CountJobs(cmds, before, j);
      CountMonotone(cmds, Yields(before, j), Yields(job, j));
      assert Yields(job, j)(c) != Yields(before, j)(c);
      assert Count(all, Is(j)) != Count(MapJobs(cmds, before), Is(j));
    }
  }
}
