/** The hook lists of a command target: every entry holds one reference on the hooked object and one on
    the method. Freeing a list drops them one by one, and each drop may run code that hooks or frees
    again, so a free is modelled by its single drops, with a stack of the frees under way. */
module Hooks {
  import opened Wrappers
  import opened Counting

  type Method = nat
  type Table = map<nat, Method>      // CMapWordToPtr

  /** A free under way: the entries not visited yet, and whether the entry being visited has lost its
      method reference but not yet its reference on the hooked object. */
  datatype Frame = Frame(rest: Table, owing: bool)

  datatype Target = Target(
    lists: seq<Option<Table>>,
    frames: seq<Frame>,              // innermost last
    hooked: int,                     // references taken on the hooked object
    taken: map<Method, int>,         // references taken on each method
    passed: map<Method, int>)        // of those, passed to callers as the previous handler

  datatype Op =
    | Hook(list: nat, message: int, handler: Option<Method>)
    | BadHook(list: nat)             // arguments that do not parse, or a handler that cannot be called
    | Free(list: nat)
    | DropMethod(word: nat)          // the loop visits an entry
    | DropHooked
    | Finish                         // the loop ends

  const WORDS := 0x1_0000

  /** The key: the message number is cut down to 16 bits. */
  function Word(message: int): nat {
    message % WORDS
  }

  function Get(m: map<Method, int>, x: Method): int {
    if x in m then m[x] else 0
  }

  function Add(m: map<Method, int>, x: Method, change: int): map<Method, int> {
    m[x := Get(m, x) + change]
  }

  function TableOf(list: Option<Table>): Table {
    if list.Some? then list.value else map[]
  }

  /** `add_hook_list`. */
  function Hooked(t: Target, list: nat, message: int, handler: Option<Method>): Target
    requires list < |t.lists|
  {
    var table := TableOf(t.lists[list]);
    var word := Word(message);
    var u := if word in table then t.(hooked := t.hooked - 1, passed := Add(t.passed, table[word], 1)) else t;
    var rest := table - {word};
    match handler
    case None => u.(lists := t.lists[list := Some(rest)])
    case Some(m) =>
      u.(lists := t.lists[list := Some(rest[word := m])], taken := Add(u.taken, m, 1), hooked := u.hooked + 1)
  }

  /** The previous handler, which `add_hook_list` returns. */
  function Previous(t: Target, list: nat, message: int): Option<Method>
    requires list < |t.lists|
  {
    var table := TableOf(t.lists[list]);
    if Word(message) in table then Some(table[Word(message)]) else None
  }

  function Top(t: Target): Frame
    requires t.frames != []
  {
    t.frames[|t.frames| - 1]
  }

  function SetTop(t: Target, f: Frame): Target
    requires t.frames != []
  {
    t.(frames := t.frames[|t.frames| - 1 := f])
  }

  function Step(t: Target, op: Op): Target {
    match op
    case Hook(l, message, handler) => if l < |t.lists| then Hooked(t, l, message, handler) else t
    case BadHook(l) => if l < |t.lists| then t.(lists := t.lists[l := Some(TableOf(t.lists[l]))]) else t
    case Free(l) =>
      if l < |t.lists| && t.lists[l].Some? then
        t.(lists := t.lists[l := None], frames := t.frames + [Frame(t.lists[l].value, false)])
      else t
    case DropMethod(word) =>
      if t.frames != [] && !Top(t).owing && word in Top(t).rest then
        SetTop(t, Frame(Top(t).rest - {word}, true)).(taken := Add(t.taken, Top(t).rest[word], -1))
      else t
    case DropHooked =>
      if t.frames != [] && Top(t).owing then SetTop(t, Top(t).(owing := false)).(hooked := t.hooked - 1) else t
    case Finish =>
      if t.frames != [] && Top(t) == Frame(map[], false) then t.(frames := t.frames[..|t.frames| - 1]) else t
  }

  function Run(t: Target, ops: seq<Op>): Target
    decreases |ops|
  {
    if ops == [] then t else Run(Step(t, ops[0]), ops[1..])
  }

  /** A new target with its lists: nothing hooked. */
  function New(lists: nat): Target {
    Target(seq(lists, _ => None), [], 0, map[], map[])
  }

  /* ---- What is held ---- */

  function Holding(table: Table, m: Method): set<nat> {
    set w | w in table && table[w] == m
  }

  function ListSize(): Option<Table> -> nat {
    list => |TableOf(list)|
  }

  function FrameSize(): Frame -> nat {
    (f: Frame) => |f.rest| + Unit(f.owing)
  }

  function ListHolds(m: Method): Option<Table> -> nat {
    list => |Holding(TableOf(list), m)|
  }

  function FrameHolds(m: Method): Frame -> nat {
    (f: Frame) => |Holding(f.rest, m)|
  }

  /** The entries whose reference on the hooked object is still held. */
  function Entries(t: Target): nat {
    Sum(t.lists, ListSize()) + Sum(t.frames, FrameSize())
  }

  /** The entries that still hold a method. */
  function MethodEntries(t: Target, m: Method): nat {
    Sum(t.lists, ListHolds(m)) + Sum(t.frames, FrameHolds(m))
  }

  /** Every reference taken is held by an entry or was passed to a caller. */
  ghost predicate Conserved(t: Target) {
    t.hooked == Entries(t) && forall m: Method :: Get(t.taken, m) == MethodEntries(t, m) + Get(t.passed, m)
  }

  lemma HoldingPut(table: Table, w: nat, x: Method, m: Method)
    requires w !in table
    ensures |Holding(table[w := x], m)| == |Holding(table, m)| + Unit(x == m)
    ensures |table[w := x]| == |table| + 1
  {
    assert Holding(table[w := x], m) == if x == m then Holding(table, m) + {w} else Holding(table, m);
    assert table[w := x].Keys == table.Keys + {w};
  }

  lemma HoldingDrop(table: Table, w: nat, m: Method)
    requires w in table
    ensures |Holding(table - {w}, m)| == |Holding(table, m)| - Unit(table[w] == m)
    ensures |table - {w}| == |table| - 1
  {
    assert Holding(table - {w}, m) == if table[w] == m then Holding(table, m) - {w} else Holding(table, m);
    assert table[w] == m ==> w in Holding(table, m);
    assert (table - {w}).Keys == table.Keys - {w};
  }

  lemma {:induction false} SumConcat<T>(s: seq<T>, x: T, weight: T -> nat)
    ensures Sum(s + [x], weight) == Sum(s, weight) + weight(x)
  {
    if s == [] {
      assert s + [x] == [x];
    } else {
      SumConcat(s[1..], x, weight);
      assert (s + [x])[1..] == s[1..] + [x];
    }
  }

  lemma SumLast<T>(s: seq<T>, weight: T -> nat)
    requires s != []
    ensures Sum(s, weight) == Sum(s[..|s| - 1], weight) + weight(s[|s| - 1])
  {
    assert s == s[..|s| - 1] + [s[|s| - 1]];
    SumConcat(s[..|s| - 1], s[|s| - 1], weight);
  }

  /** What a hook call changes in its table. */
  lemma TableChange(table: Table, word: nat, handler: Option<Method>, m: Method)
    ensures var rest := table - {word};
            var after := if handler.Some? then rest[word := handler.value] else rest;
            && |after| == |table| - Unit(word in table) + Unit(handler.Some?)
            && |Holding(after, m)|
               == |Holding(table, m)| - Unit(word in table && table[word] == m) + Unit(handler == Some(m))
  {
    var rest := table - {word};
    if word in table {
      HoldingDrop(table, word, m);
    } else {
      assert rest == table;
    }
    if handler.Some? {
      HoldingPut(rest, word, handler.value, m);
    }
  }

  lemma HookEntries(t: Target, l: nat, message: int, handler: Option<Method>)
    requires l < |t.lists|
    ensures var u := Hooked(t, l, message, handler); u.hooked - Entries(u) == t.hooked - Entries(t)
  {
    var u := Hooked(t, l, message, handler);
    TableChange(TableOf(t.lists[l]), Word(message), handler, 0);
    SumUpdate(t.lists, l, u.lists[l], ListSize());
  }

  lemma HookMethods(t: Target, l: nat, message: int, handler: Option<Method>, m: Method)
    requires l < |t.lists|
    ensures var u := Hooked(t, l, message, handler);
            Get(u.taken, m) - MethodEntries(u, m) - Get(u.passed, m)
            == Get(t.taken, m) - MethodEntries(t, m) - Get(t.passed, m)
  {
    var u := Hooked(t, l, message, handler);
    TableChange(TableOf(t.lists[l]), Word(message), handler, m);
    SumUpdate(t.lists, l, u.lists[l], ListHolds(m));
  }

  lemma ListConserves(t: Target, op: Op, m: Method)
    requires op.BadHook? || op.Free?
    ensures var u := Step(t, op);
            Entries(u) == Entries(t) && MethodEntries(u, m) == MethodEntries(t, m)
  {
    var u := Step(t, op);
    if op.list < |t.lists| && u != t {
      SumUpdate(t.lists, op.list, u.lists[op.list], ListSize());
      SumUpdate(t.lists, op.list, u.lists[op.list], ListHolds(m));
      if op.Free? {
        SumConcat(t.frames, Frame(t.lists[op.list].value, false), FrameSize());
        SumConcat(t.frames, Frame(t.lists[op.list].value, false), FrameHolds(m));
      }
    }
  }

  lemma FinishConserves(t: Target, m: Method)
    ensures var u := Step(t, Finish); Entries(u) == Entries(t) && MethodEntries(u, m) == MethodEntries(t, m)
  {
    if Step(t, Finish) != t {
      SumLast(t.frames, FrameSize());
      SumLast(t.frames, FrameHolds(m));
    }
  }

  lemma DropMethodConserves(t: Target, word: nat, m: Method)
    ensures var u := Step(t, DropMethod(word));
            && Entries(u) == Entries(t)
            && Get(u.taken, m) - MethodEntries(u, m) == Get(t.taken, m) - MethodEntries(t, m)
  {
    var u := Step(t, DropMethod(word));
    if u != t {
      var n := |t.frames| - 1;
      HoldingDrop(Top(t).rest, word, m);
      SumUpdate(t.frames, n, u.frames[n], FrameSize());
      SumUpdate(t.frames, n, u.frames[n], FrameHolds(m));
    }
  }

  lemma DropHookedConserves(t: Target, m: Method)
    ensures var u := Step(t, DropHooked);
            u.hooked - Entries(u) == t.hooked - Entries(t) && MethodEntries(u, m) == MethodEntries(t, m)
  {
    var u := Step(t, DropHooked);
    if u != t {
      var n := |t.frames| - 1;
      SumUpdate(t.frames, n, u.frames[n], FrameSize());
      SumUpdate(t.frames, n, u.frames[n], FrameHolds(m));
    }
  }

  lemma StepConserves(t: Target, op: Op)
    requires Conserved(t)
    ensures Conserved(Step(t, op))
  {
    StepBalances(t, op, 0);
    forall m: Method ensures Get(Step(t, op).taken, m) == MethodEntries(Step(t, op), m) + Get(Step(t, op).passed, m) {
      StepBalances(t, op, m);
    }
  }

  /** No step changes the balance between the references taken and the entries that hold them. */
  lemma StepBalances(t: Target, op: Op, m: Method)
    ensures var u := Step(t, op);
            && u.hooked - Entries(u) == t.hooked - Entries(t)
            && Get(u.taken, m) - MethodEntries(u, m) - Get(u.passed, m)
               == Get(t.taken, m) - MethodEntries(t, m) - Get(t.passed, m)
  {
    match op
    case Hook(l, message, handler) =>
      if l < |t.lists| {
        HookEntries(t, l, message, handler);
        HookMethods(t, l, message, handler, m);
      }
    case BadHook(_) => ListConserves(t, op, m);
    case Free(_) => ListConserves(t, op, m);
    case DropMethod(word) => DropMethodConserves(t, word, m);
    case DropHooked => DropHookedConserves(t, m);
    case Finish => FinishConserves(t, m);
  }

  lemma {:induction false} RunConserves(t: Target, ops: seq<Op>)
    requires Conserved(t)
    ensures Conserved(Run(t, ops))
    decreases |ops|
  {
    if ops != [] {
      StepConserves(t, ops[0]);
      RunConserves(Step(t, ops[0]), ops[1..]);
    }
  }

  lemma {:induction false} SumZero<T>(s: seq<T>, weight: T -> nat)
    ensures Sum(s, weight) == 0 <==> forall i | 0 <= i < |s| :: weight(s[i]) == 0
  {
    if s != [] {
      SumZero(s[1..], weight);
      assert s == [s[0]] + s[1..];
      if Sum(s, weight) == 0 {
        forall i | 0 <= i < |s| ensures weight(s[i]) == 0 {
          assert i > 0 ==> s[i] == s[1..][i - 1];
        }
      } else if weight(s[0]) == 0 {
        var i :| 0 <= i < |s[1..]| && weight(s[1..][i]) != 0;
        assert weight(s[i + 1]) != 0;
      }
    }
  }

  lemma NewIsConserved(lists: nat)
    ensures Conserved(New(lists))
  {
    SumZero(New(lists).lists, ListSize());
    forall m: Method ensures MethodEntries(New(lists), m) == 0 {
      SumZero(New(lists).lists, ListHolds(m));
    }
  }

  /** Over every sequence of hook and free calls, however deeply frees are entered again from inside a
      free: the references held on the hooked object are the entries of its lists and of the frees under
      way, and each method has one reference per entry that holds it, besides those passed to callers. */
  lemma ReferencesAreConserved(lists: nat, ops: seq<Op>)
    ensures var t := Run(New(lists), ops);
            && t.hooked == Entries(t)
            && forall m: Method :: Get(t.taken, m) == MethodEntries(t, m) + Get(t.passed, m)
  {
    NewIsConserved(lists);
    RunConserves(New(lists), ops);
  }

  /** When no free is under way, the entries are those of the lists. */
  lemma QuiescentReferences(lists: nat, ops: seq<Op>)
    requires Run(New(lists), ops).frames == []
    ensures var t := Run(New(lists), ops);
            && t.hooked == Sum(t.lists, ListSize())
            && forall m: Method :: Get(t.taken, m) == Sum(t.lists, ListHolds(m)) + Get(t.passed, m)
  {
    ReferencesAreConserved(lists, ops);
  }

  /** When the last reference on the hooked object goes, in the middle of however many frees, nothing is
      left to visit: the destructor finds empty lists only, and no free under way touches the object
      again. */
  lemma LastReferenceIsTheLast(lists: nat, ops: seq<Op>, elsewhere: nat)
    requires Run(New(lists), ops).hooked + elsewhere == 0
    ensures var t := Run(New(lists), ops);
            && (forall l | 0 <= l < |t.lists| :: TableOf(t.lists[l]) == map[])
            && (forall i | 0 <= i < |t.frames| :: t.frames[i] == Frame(map[], false))
  {
    ReferencesAreConserved(lists, ops);
    var t := Run(New(lists), ops);
    SumZero(t.lists, ListSize());
    SumZero(t.frames, FrameSize());
    forall l | 0 <= l < |t.lists| ensures TableOf(t.lists[l]) == map[] {
      assert ListSize()(t.lists[l]) == 0;
    }
    forall i | 0 <= i < |t.frames| ensures t.frames[i] == Frame(map[], false) {
      assert FrameSize()(t.frames[i]) == 0;
    }
  }

  /* ---- Hooking and freeing ---- */

  /** A handler is found again under every message number with the same low 16 bits and under no other;
      no other entry and no other list changes, and a replaced handler's reference goes to the caller. */
  lemma HookIsFound(t: Target, l: nat, message: int, handler: Option<Method>, other: int, k: nat, m: Method)
    requires l < |t.lists| && k < |t.lists|
    ensures var u := Step(t, Hook(l, message, handler));
            && Previous(u, k, other)
               == (if k == l && (other - message) % 0x1_0000 == 0 then handler else Previous(t, k, other))
            && Get(u.passed, m) == Get(t.passed, m) + Unit(Previous(t, l, message) == Some(m))
            && Get(u.taken, m) == Get(t.taken, m) + Unit(handler == Some(m))
  {
    assert (other - message) % 0x1_0000 == 0 <==> Word(other) == Word(message);
  }

  /** A hook call with bad arguments changes no handler and no reference, but makes the list. */
  lemma BadHookMakesTheList(t: Target, l: nat, other: int, k: nat)
    requires l < |t.lists| && k < |t.lists|
    ensures var u := Step(t, BadHook(l));
            && u == t.(lists := u.lists) && |u.lists| == |t.lists| && u.lists[l].Some?
            && Previous(u, k, other) == Previous(t, k, other)
  {
  }

  /** From the start of a free until something is hooked into the list again, freeing it does nothing,
      wherever that happens. */
  lemma {:induction false} FreeAgainDoesNothing(t: Target, l: nat, ops: seq<Op>)
    requires l < |t.lists| ==> t.lists[l] == None
    requires forall op | op in ops :: !((op.Hook? || op.BadHook?) && op.list == l)
    ensures Step(Run(t, ops), Free(l)) == Run(t, ops)
    decreases |ops|
  {
    if ops != [] {
      assert ops[0] in ops;
      FreeAgainDoesNothing(Step(t, ops[0]), l, ops[1..]);
    }
  }

  lemma {:induction false} RunAppend(t: Target, ops: seq<Op>, op: Op)
    ensures Run(t, ops + [op]) == Step(Run(t, ops), op)
    decreases |ops|
  {
    if ops == [] {
      assert [] + [op] == [op];
    } else {
      RunAppend(Step(t, ops[0]), ops[1..], op);
      assert (ops + [op])[1..] == ops[1..] + [op];
    }
  }

  lemma RunTwoMore(t: Target, ops: seq<Op>, first: Op, second: Op)
    ensures Run(t, ops + [first, second]) == Step(Step(Run(t, ops), first), second)
  {
    RunAppend(t, ops, first);
    RunAppend(t, ops + [first], second);
    assert ops + [first, second] == ops + [first] + [second];
  }

  lemma {:induction false} RunConcat(t: Target, first: seq<Op>, second: seq<Op>)
    ensures Run(t, first + second) == Run(Run(t, first), second)
    decreases |first|
  {
    if first == [] {
      assert first + second == second;
    } else {
      assert (first + second)[0] == first[0] && (first + second)[1..] == first[1..] + second;
      RunConcat(Step(t, first[0]), first[1..], second);
    }
  }

  /* ---- The object ---- */

  /** The run of a free: it begins with the free of the list, if there is one. */
  predicate FreesList(t: Target, l: nat, script: seq<Op>) {
    if l < |t.lists| && t.lists[l].Some? then [Free(l)] <= script else script == []
  }

  function Flat(scripts: seq<seq<Op>>): seq<Op> {
    if scripts == [] then [] else Flat(scripts[..|scripts| - 1]) + scripts[|scripts| - 1]
  }

  /** Every run frees the list of its number in the state that the runs before it have left. */
  ghost predicate FreesInOrder(t: Target, scripts: seq<seq<Op>>) {
    forall l: nat | l < |scripts| :: FreesList(Run(t, Flat(scripts[..l])), l, scripts[l])
  }

  lemma OneListMore(t: Target, scripts: seq<seq<Op>>, script: seq<Op>)
    requires FreesInOrder(t, scripts) && FreesList(Run(t, Flat(scripts)), |scripts|, script)
    ensures FreesInOrder(t, scripts + [script]) && Flat(scripts + [script]) == Flat(scripts) + script
  {
    var longer := scripts + [script];
    assert longer[..|scripts|] == scripts;
    forall l: nat | l < |longer| ensures FreesList(Run(t, Flat(longer[..l])), l, longer[l]) {
      if l < |scripts| {
        assert longer[..l] == scripts[..l];
      }
    }
  }

  lemma RunFirst(t: Target, op: Op, rest: seq<Op>)
    ensures Run(t, [op] + rest) == Run(Step(t, op), rest)
  {
    assert ([op] + rest)[1..] == rest;
  }

  /** One handler, for message 0. */
  function Only(m: Method): Table {
    map[0 := m]
  }

  lemma FirstHook(t: Target, l: nat, n: Method)
    requires l < |t.lists| && t.lists[l] == None
    ensures Step(t, Hook(l, 0, Some(n)))
         == t.(lists := t.lists[l := Some(Only(n))], taken := Add(t.taken, n, 1), hooked := t.hooked + 1)
  {
    var none: Table := map[];
    assert none - {0} == none && Word(0) == 0 && none[0 := n] == Only(n);
  }

  /** The free of a list with one entry, when the code that its drop runs hooks another list. */
  lemma FreeThatHooks(t: Target, l: nat, k: nat, m: Method, n: Method)
    requires l < |t.lists| && k < |t.lists| && k != l && t.lists[l] == Some(Only(m)) && t.lists[k] == None
    ensures var u := Run(t, [Free(l)] + ([DropMethod(0)] + ([Hook(k, 0, Some(n))] + ([DropHooked] + [Finish]))));
            u.lists == t.lists[l := None][k := Some(Only(n))] && u.frames == t.frames && u.hooked == t.hooked
  {
    RunFirst(t, Free(l), [DropMethod(0)] + ([Hook(k, 0, Some(n))] + ([DropHooked] + [Finish])));
    var free := Step(t, Free(l));
    RunFirst(free, DropMethod(0), [Hook(k, 0, Some(n))] + ([DropHooked] + [Finish]));
    assert Only(m) - {0} == map[];
    var drop := Step(free, DropMethod(0));
    RunFirst(drop, Hook(k, 0, Some(n)), [DropHooked] + [Finish]);
    FirstHook(drop, k, n);
    HookedInside(t, Step(drop, Hook(k, 0, Some(n))));
  }

  lemma HookedInside(t: Target, u: Target)
    requires u.frames == t.frames + [Frame(map[], true)]
    ensures Run(u, [DropHooked] + [Finish]) == u.(frames := t.frames, hooked := u.hooked - 1)
  {
    RunFirst(u, DropHooked, [Finish]);
    RunFirst(Step(u, DropHooked), Finish, []);
    assert [Finish] + [] == [Finish];
  }

  /** A list that is hooked again after the destructor has passed it keeps its entry, and the reference on the
      object is never given back: here by the code that the drop of the last list runs. */
  lemma AListThatSurvives(m: Method, n: Method)
    ensures var t := Step(New(2), Hook(1, 0, Some(m)));
            var last := [Free(1)] + ([DropMethod(0)] + ([Hook(0, 0, Some(n))] + ([DropHooked] + [Finish])));
            var u := Run(t, Flat([[], last]));
            && FreesInOrder(t, [[], last])
            && u.frames == [] && u.lists == [Some(Only(n)), None] && u.hooked == 1
  {
    var t := Step(New(2), Hook(1, 0, Some(m)));
    var last := [Free(1)] + ([DropMethod(0)] + ([Hook(0, 0, Some(n))] + ([DropHooked] + [Finish])));
    FirstHook(New(2), 1, m);
    FreeThatHooks(t, 1, 0, m, n);
    SecondOfTwo(t, last);
  }

  lemma FlatLast(scripts: seq<seq<Op>>, last: seq<Op>)
    ensures Flat(scripts + [last]) == Flat(scripts) + last
  {
    assert (scripts + [last])[..|scripts|] == scripts;
  }

  lemma FlatTwo(last: seq<Op>)
    ensures Flat([[], last]) == last && Flat([[]]) == []
  {
    var none: seq<seq<Op>> := [];
    FlatLast(none, []);
    assert none + [[]] == [[]];
    FlatLast([[]], last);
    assert [[]] + [last] == [[], last] && [] + last == last;
  }

  lemma SecondOfTwo(t: Target, last: seq<Op>)
    requires |t.lists| == 2 && t.lists[0] == None && FreesList(t, 1, last)
    ensures FreesInOrder(t, [[], last]) && Flat([[], last]) == last
  {
    FlatTwo(last);
    InOrderTwo(t, [[], last]);
  }

  lemma InOrderTwo(t: Target, scripts: seq<seq<Op>>)
    requires |scripts| == 2 && Flat([scripts[0]]) == [] && FreesList(t, 0, scripts[0]) && FreesList(t, 1, scripts[1])
    ensures FreesInOrder(t, scripts)
  {
    forall l: nat | l < |scripts| ensures FreesList(Run(t, Flat(scripts[..l])), l, scripts[l]) {
      if l == 1 {
        assert scripts[..1] == [scripts[0]];
      }
    }
  }

  /** `PyCCmdTarget`, with its hook lists in the order in which the destructor frees them. */
  class PyCCmdTarget {
    var lists: seq<Option<Table>>
    var hooked: int
    var taken: map<Method, int>
    var passed: map<Method, int>
    ghost var frames: seq<Frame>

    ghost function View(): Target
      reads this
    {
      Target(lists, frames, hooked, taken, passed)
    }

    constructor (count: nat)
      ensures View() == New(count)
    {
      lists := seq(count, _ => None);
      hooked, taken, passed, frames := 0, map[], map[], [];
    }

    /** `add_hook_list`. `handler` is absent if the arguments are bad. */
    method AddHookList(l: nat, message: int, valid: bool, handler: Option<Method>) returns (previous: Option<Method>)
      requires l < |lists|
      modifies this
      ensures View() == Step(old(View()), if valid then Hook(l, message, handler) else BadHook(l))
      ensures previous == if valid then Previous(old(View()), l, message) else None
    {
      var list: Table := if lists[l].Some? then lists[l].value else map[];
      lists := lists[l := Some(list)];
      if !valid {
        return None;
      }
      previous := None;
      hooked := hooked + 1;          // the temporary reference
      if Word(message) in list {
        previous := Some(list[Word(message)]);
        passed := Add(passed, list[Word(message)], 1);
        hooked := hooked - 1;
      }
      list := list - {Word(message)};
      if handler.Some? {
        taken := Add(taken, handler.value, 1);
        list := list[Word(message) := handler.value];
        hooked := hooked + 1;
      }
      hooked := hooked - 1;
      lists := lists[l := Some(list)];
    }

    /** `Py_XDECREF(method)`. */
    method DropMethodReference(list: Table, message: nat, ghost begun: seq<Frame>) returns (rest: Table)
      requires message in list && frames == begun + [Frame(list, false)]
      modifies this`taken, this`frames
      ensures rest == list - {message} && |rest| == |list| - 1
      ensures View() == Step(old(View()), DropMethod(message)) && frames == begun + [Frame(rest, true)]
      ensures forall m: Method :: Get(taken, m) - |Holding(rest, m)| == Get(old(taken), m) - |Holding(list, m)|
    {
      forall m: Method ensures |Holding(list - {message}, m)| == |Holding(list, m)| - Unit(list[message] == m) {
        HoldingDrop(list, message, m);
      }
      HoldingDrop(list, message, 0);
      taken := Add(taken, list[message], -1);
      rest := list - {message};
      frames := begun + [Frame(rest, true)];
    }

    /** `Py_XDECREF(hookedObject)`. */
    method DropHookedReference(ghost rest: Table, ghost begun: seq<Frame>)
      requires frames == begun + [Frame(rest, true)]
      modifies this`hooked, this`frames
      ensures View() == Step(old(View()), DropHooked) && frames == begun + [Frame(rest, false)]
      ensures hooked == old(hooked) - 1
    {
      hooked := hooked - 1;
      frames := begun + [Frame(rest, false)];
    }

    /** One turn of the loop of `free_hook_list`. */
    method VisitEntry(list: Table, message: nat, ghost begun: seq<Frame>) returns (rest: Table)
      requires message in list && frames == begun + [Frame(list, false)]
      modifies this
      ensures rest == list - {message} && |rest| == |list| - 1
      ensures View() == Step(Step(old(View()), DropMethod(message)), DropHooked)
      ensures lists == old(lists) && passed == old(passed) && frames == begun + [Frame(rest, false)]
      ensures hooked == old(hooked) - 1
      ensures forall m: Method :: Get(taken, m) - |Holding(rest, m)| == Get(old(taken), m) - |Holding(list, m)|
    {
      rest := DropMethodReference(list, message, begun);
      DropHookedReference(rest, begun);
    }

    /** `free_hook_list`, when no drop runs other code: its drops are steps of the model, and together they
        give back exactly what the list held. */
    method FreeHookList(l: nat) returns (ghost script: seq<Op>)
      requires l < |lists|
      modifies this
      ensures View() == Run(old(View()), script)
      ensures lists == old(lists)[l := None] && frames == old(frames) && passed == old(passed)
      ensures hooked == old(hooked) - |TableOf(old(lists)[l])|
      ensures forall m: Method :: Get(taken, m) == Get(old(taken), m) - |Holding(TableOf(old(lists)[l]), m)|
    {
      script := [];
      if lists[l] == None {
        assert lists == old(lists)[l := None];
        return;
      }
      var list: Table := lists[l].value;
      lists := lists[l := None];
      ghost var begun := frames;
      frames := frames + [Frame(list, false)];
      script := [Free(l)];
      while list != map[]
        invariant View() == Run(old(View()), script)
        invariant lists == old(lists)[l := None] && frames == begun + [Frame(list, false)] && passed == old(passed)
        invariant hooked - |list| == old(hooked) - |TableOf(old(lists)[l])|
        invariant forall m: Method :: Get(taken, m) - |Holding(list, m)|
                                      == Get(old(taken), m) - |Holding(TableOf(old(lists)[l]), m)|
        decreases |list|
      {
        var message :| message in list;
        RunTwoMore(old(View()), script, DropMethod(message), DropHooked);
        list := VisitEntry(list, message, begun);
        script := script + [DropMethod(message), DropHooked];
      }
      frames := begun;
      RunAppend(old(View()), script, Finish);
      script := script + [Finish];
    }

    /** What the code entered from inside a drop may do: hook and free any lists, in any order. `depth`
        bounds how deeply frees are entered inside frees. */
    method OtherCode(depth: nat) returns (ghost script: seq<Op>)
      modifies this
      ensures View() == Run(old(View()), script)
      ensures |lists| == |old(lists)| && frames == old(frames)
      decreases depth, 1
    {
      script := [];
      var turns: nat :| true;
      for i := 0 to turns
        invariant View() == Run(old(View()), script)
        invariant |lists| == |old(lists)| && frames == old(frames)
      {
        var l: nat, message: int, valid: bool, handler: Option<Method>, frees: bool := *, *, *, *, *;
        if l < |lists| {
          ghost var more: seq<Op>;
          if frees {
            more := FreeWithOtherCode(l, depth);
          } else {
            var _ := AddHookList(l, message, valid, handler);
            more := [if valid then Hook(l, message, handler) else BadHook(l)];
            assert more[1..] == [];
          }
          RunConcat(old(View()), script, more);
          script := script + more;
        }
      }
    }

    method MaybeOtherCode(depth: nat, ghost past: Target, ghost steps: seq<Op>) returns (ghost script: seq<Op>)
      requires View() == Run(past, steps)
      modifies this
      ensures View() == Run(past, script) && steps <= script
      ensures |lists| == |old(lists)| && frames == old(frames)
      decreases depth, 0, 0
    {
      script := steps;
      if depth > 0 {
        ghost var more := OtherCode(depth - 1);
        RunConcat(past, steps, more);
        script := steps + more;
      }
    }

    /** One turn of the loop of `free_hook_list`, with other code entered from both drops. */
    method VisitWithOtherCode(list: Table, message: nat, depth: nat, ghost begun: seq<Frame>, ghost past: Target,
                              ghost steps: seq<Op>)
      returns (rest: Table, ghost script: seq<Op>)
      requires message in list && frames == begun + [Frame(list, false)]
      requires View() == Run(past, steps)
      modifies this
      ensures rest == list - {message} && |rest| < |list|
      ensures View() == Run(past, script) && steps <= script
      ensures |lists| == |old(lists)| && frames == begun + [Frame(rest, false)]
      decreases depth, 0, 1
    {
      RunAppend(past, steps, DropMethod(message));
      rest := DropMethodReference(list, message, begun);
      script := MaybeOtherCode(depth, past, steps + [DropMethod(message)]);
      RunAppend(past, script, DropHooked);
      DropHookedReference(rest, begun);
      script := MaybeOtherCode(depth, past, script + [DropHooked]);
    }

    /** The loop of `free_hook_list`, with other code entered from all its drops. */
    method VisitAll(entries: Table, depth: nat, ghost begun: seq<Frame>, ghost past: Target, ghost steps: seq<Op>)
      returns (ghost script: seq<Op>)
      requires frames == begun + [Frame(entries, false)]
      requires View() == Run(past, steps)
      modifies this
      ensures View() == Run(past, script) && steps <= script
      ensures |lists| == |old(lists)| && frames == begun + [Frame(map[], false)]
      decreases depth, 0, 2
    {
      script := steps;
      var list := entries;
      while list != map[]
        invariant View() == Run(past, script) && steps <= script
        invariant |lists| == |old(lists)| && frames == begun + [Frame(list, false)]
        decreases |list|
      {
        var message :| message in list;
        list, script := VisitWithOtherCode(list, message, depth, begun, past, script);
      }
    }

    /** `free_hook_list`, with any code entered from its drops, frees of the same list included: whatever
        that code does, the whole is a run of the model that begins with the free of the list, if there is
        one, and ends when the frees under way are those of before. */
    method FreeWithOtherCode(l: nat, depth: nat) returns (ghost script: seq<Op>)
      requires l < |lists|
      modifies this
      ensures View() == Run(old(View()), script) && FreesList(old(View()), l, script)
      ensures |lists| == |old(lists)| && frames == old(frames)
      ensures old(Conserved(View())) ==> Conserved(View())
      decreases depth, 0, 3
    {
      script := [];
      if lists[l] == None {
        return;
      }
      var list: Table := lists[l].value;
      lists := lists[l := None];
      ghost var begun := frames;
      frames := frames + [Frame(list, false)];
      assert [Free(l)][1..] == [];
      script := VisitAll(list, depth, begun, old(View()), [Free(l)]);
      frames := begun;
      RunAppend(old(View()), script, Finish);
      script := script + [Finish];
      if old(Conserved(View())) {
        RunConserves(old(View()), script);
      }
    }

    /** `~PyCCmdTarget`, with any code entered from the drops of its frees: the lists are freed one after the
        other, and in the end the references left are those of the entries hooked again meanwhile. */
    method DestroyWithOtherCode(depth: nat) returns (ghost scripts: seq<seq<Op>>)
      modifies this
      ensures |scripts| == |lists| == |old(lists)| && frames == old(frames)
      ensures View() == Run(old(View()), Flat(scripts)) && FreesInOrder(old(View()), scripts)
      ensures old(Conserved(View())) ==> Conserved(View())
      ensures old(Conserved(View()) && frames == []) ==> hooked == Sum(lists, ListSize())
    {
      scripts := [];
      for l := 0 to |lists|
        invariant |scripts| == l && |lists| == |old(lists)| && frames == old(frames)
        invariant View() == Run(old(View()), Flat(scripts)) && FreesInOrder(old(View()), scripts)
        invariant old(Conserved(View())) ==> Conserved(View())
      {
        ghost var script := FreeWithOtherCode(l, depth);
        RunConcat(old(View()), Flat(scripts), script);
        OneListMore(old(View()), scripts, script);
        scripts := scripts + [script];
      }
    }

    /** `~PyCCmdTarget`, when no drop runs other code: all lists are freed, and every entry gives back its
        references. */
    method Destroy()
      modifies this
      ensures lists == seq(|old(lists)|, _ => None) && frames == old(frames) && passed == old(passed)
      ensures hooked == old(hooked) - Sum(old(lists), ListSize())
      ensures forall m: Method :: Get(taken, m) == Get(old(taken), m) - Sum(old(lists), ListHolds(m))
    {
      for l := 0 to |lists|
        invariant |lists| == |old(lists)| && frames == old(frames) && passed == old(passed)
        invariant forall k | 0 <= k < l :: lists[k] == None
        invariant forall k | l <= k < |lists| :: lists[k] == old(lists)[k]
        invariant hooked - Sum(lists, ListSize()) == old(hooked) - Sum(old(lists), ListSize())
        invariant forall m: Method :: Get(taken, m) - Sum(lists, ListHolds(m))
                                      == Get(old(taken), m) - Sum(old(lists), ListHolds(m))
      {
        SumUpdate(lists, l, None, ListSize());
        forall m: Method
          ensures Sum(lists[l := None], ListHolds(m)) + |Holding(TableOf(lists[l]), m)| == Sum(lists, ListHolds(m))
        {
          SumUpdate(lists, l, None, ListHolds(m));
        }
        ghost var _ := FreeHookList(l);
      }
      SumZero(lists, ListSize());
      forall m: Method ensures Sum(lists, ListHolds(m)) == 0 {
        SumZero(lists, ListHolds(m));
      }
    }
  }
}
