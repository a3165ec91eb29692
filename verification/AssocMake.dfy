/** What `make` hands out, told from the calls alone: the wrapper it made for a pointer, of the type it was made
    for, as long as that lives; and how many references its callers hold. */
module AssocMake {
  import opened AssocTheorems
  import opened AssocWorld
  import opened Wrappers

  /* ---- A wrapper keeps its type and its pointer ---- */

  /** Nothing has happened to the wrapper. */
  predicate SameWrapper(w: World, v: World, o: Obj) {
    KindOf(v, o) == KindOf(w, o) && AssocOf(v, o) == AssocOf(w, o)
  }

  /** What the parts of a call leave alone. */
  lemma DiscardKeeps(w: World, h: Ptr)
    ensures var v := Discard(w, h);
            && v.strong == w.strong && v.dying == w.dying && v.born == w.born
            && v.assoc == w.assoc && v.kind == w.kind
  {
  }

  lemma LookupKeeps(w: World, h: Ptr)
    ensures var (v, got) := PlainLookup(w, h);
            && v.dying == w.dying && v.born == w.born && v.assoc == w.assoc && v.kind == w.kind
            && (got.Some? ==> got == Find(w, h) && got.value in w.strong)
            && v.strong == if got.Some? then w.strong[got.value := w.strong[got.value] + 1] else w.strong
  {
    DiscardKeeps(w, h);
  }

  lemma CreatedIs(w: World, search: Ptr, want: UiType, refOk: bool)
    ensures var v := Created(w, search, want, refOk);
            && v.strong == w.strong[w.born := 1] && v.kind == w.kind[w.born := want]
            && v.assoc == w.assoc[w.born := search] && v.born == w.born + 1 && v.dying == w.dying
  {
    var n := w.born;
    DiscardKeeps(w.(strong := w.strong[n := 1], assoc := w.assoc[n := 0], kind := w.kind[n := want], born := n + 1),
                 search);
    assert w.assoc[n := 0][n := search] == w.assoc[n := search];
  }

  lemma BuriedIs(w: World, o: Obj)
    ensures var v := Buried(w, o);
            && v.strong == w.strong && v.dying == w.dying - {o} && v.born == w.born
            && v.assoc == w.assoc - {o} && v.kind == w.kind
  {
    DiscardKeeps(w, AssocOf(w, o));
  }

  /** What a call does to the wrappers, whatever the map looks like. */
  lemma WrappersAfter(w: World, op: Op)
    ensures var v := PlainStep(w, op).0;
            match op
            case Make(search, want, skip, _) =>
              var (u, got) := if skip then (w, None) else PlainLookup(w, search);
              if got.None? && want.concrete then
                && v.strong == w.strong[w.born := 1] && v.kind == w.kind[w.born := want]
                && v.assoc == w.assoc[w.born := search] && v.born == w.born + 1 && v.dying == w.dying
              else
                v.strong == u.strong && v.kind == w.kind && v.assoc == w.assoc && v.born == w.born && v.dying == w.dying
            case Release(o, _) =>
              && v.kind == w.kind && v.born == w.born && v.strong == Released(w, o).strong
              && w.assoc - {o} == v.assoc - {o} && (!Dies(w, o) ==> v.assoc == w.assoc && v.dying == w.dying)
              && v.dying <= w.dying + {o}
            case EndDeath(o) =>
              && v.kind == w.kind && v.born == w.born && v.strong == w.strong && v.dying == w.dying - {o}
              && v.assoc == if o in w.dying then w.assoc - {o} else w.assoc
            case Lookup(h) =>
              && v.strong == PlainLookup(w, h).0.strong
              && v.kind == w.kind && v.assoc == w.assoc && v.born == w.born && v.dying == w.dying
            case Retain(o) =>
              && v.strong == Retained(w, o).strong
              && v.kind == w.kind && v.assoc == w.assoc && v.born == w.born && v.dying == w.dying
            case Forget(_) =>
              v.strong == w.strong && v.kind == w.kind && v.assoc == w.assoc && v.born == w.born && v.dying == w.dying
  {
    match op
    case Make(search, want, skip, refOk) =>
      LookupKeeps(w, search);
      CreatedIs(if skip then w else PlainLookup(w, search).0, search, want, refOk);
    case Lookup(h) => LookupKeeps(w, h);
    case Forget(h) => DiscardKeeps(w, h);
    case Retain(_) =>
    case Release(o, _) => BuriedIs(Released(w, o), o);
    case EndDeath(o) => BuriedIs(w, o);
  }

  lemma StepKeepsWrapper(w: World, op: Op, o: Obj)
    requires Numbered(w) && o in w.strong
    ensures var v := PlainStep(w, op).0; o in v.strong ==> SameWrapper(w, v, o)
  {
    WrappersAfter(w, op);
  }

  lemma StepRevivesNobody(w: World, op: Op, o: Obj)
    requires Numbered(w) && o < w.born
    ensures var v := PlainStep(w, op).0; o < v.born && (o in v.strong ==> o in w.strong)
  {
    WrappersAfter(w, op);
    if op.Make? || op.Lookup? {
      LookupKeeps(w, if op.Make? then op.search else op.handle);
    }
  }

  lemma {:induction false} RunKeepsWrapper(w: World, ops: seq<Op>, o: Obj)
    requires Mirror(w) && Numbered(w) && !EverBreaks(w, ops)
    requires o < w.born && o in PlainRun(w, ops).0.strong
    ensures o in w.strong && SameWrapper(w, PlainRun(w, ops).0, o)
    decreases |ops|
  {
    if ops != [] {
      var v := PlainStep(w, ops[0]).0;
      StepKeepsMirrorIff(w, ops[0]);
      StepRevivesNobody(w, ops[0], o);
      RunKeepsWrapper(v, ops[1..], o);
      StepKeepsWrapper(w, ops[0], o);
    }
  }

  /* ---- What `make` answers ---- */

  ghost predicate HasWrapper(w: World, p: Ptr) {
    exists o: Obj :: o in w.strong && AssocOf(w, o) == p
  }

  lemma EntryHasWrapper(w: World, p: Ptr)
    requires Mirror(w) && w.dying == {} && p in w.handles
    ensures HasWrapper(w, p)
  {
    assert Exists(w, w.handles[p]) && AssocOf(w, w.handles[p]) == p;
  }

  /** The state and the answer after the first `make`. */
  lemma FirstMake(w: World, p: Ptr, t: UiType, r: bool)
    requires Numbered(w) && p !in w.handles && p != 0
    ensures var (v, answer) := PlainStep(w, Make(p, t, false, r));
            if t.concrete then
              && answer == Object(w.born) && v.born == w.born + 1
              && w.born in v.strong && v.strong[w.born] == 1 && KindOf(v, w.born) == t && AssocOf(v, w.born) == p
            else answer == NoConstructor && v == w
  {
  }

  lemma NextMake(w: World, p: Ptr, o: Obj, u: UiType, r: bool)
    requires Mirror(w) && o in w.strong && AssocOf(w, o) == p && p != 0
    ensures var (v, answer) := PlainStep(w, Make(p, u, false, r));
            && answer == (if u.id == KindOf(w, o).id || u.id in KindOf(w, o).bases then Object(o) else Mismatch)
            && v == w.(strong := w.strong[o := w.strong[o] + 1])
  {
    assert Exists(w, o);
  }

  predicate AllUsual(ops: seq<Op>) {
    forall op | op in ops :: Usual(op)
  }

  /** A run of usual calls, seen without the cache. */
  lemma UsualWorld(ops: seq<Op>)
    requires AllUsual(ops)
    ensures var c := CachedRun(START, ops).0;
            && CacheAgrees(c) && c.world == PlainRun(EMPTY, ops).0
            && Mirror(c.world) && Numbered(c.world) && c.world.dying == {}
  {
    RunAgrees(START, ops);
    UsualNeverBreaks(EMPTY, ops);
    RunKeepsMirror(EMPTY, ops);
  }

  /** After usual calls, `make` for a pointer that has no wrapper makes a new one if the type has a constructor,
      and otherwise raises and changes nothing.  As long as the new wrapper lives, whatever usual calls follow,
      `make` for the pointer hands out that same wrapper to those who ask for its type or for one it derives
      from, and raises for everybody else. */
  lemma MakeIsByType(ops: seq<Op>, p: Ptr, t: UiType, r: bool, more: seq<Op>, u: UiType, s: bool)
    requires AllUsual(ops) && AllUsual(more) && p != 0 && r
    requires !HasWrapper(CachedRun(START, ops).0.world, p)
    ensures var before := CachedRun(START, ops).0;
            var (made, answer) := CachedStep(before, Make(p, t, false, r));
            var after := CachedRun(made, more).0;
            if !t.concrete then answer == NoConstructor && made.world == before.world
            else
              && answer == Object(before.world.born)
              && (before.world.born in after.world.strong ==>
                    CachedStep(after, Make(p, u, false, s)).1
                    == if u.id == t.id || u.id in t.bases then answer else Mismatch)
  {
    var before := CachedRun(START, ops).0;
    var make := Make(p, t, false, r);
    UsualWorld(ops);
    if p in before.world.handles {
      EntryHasWrapper(before.world, p);
    }
    FirstMake(before.world, p, t, r);
    StepAgrees(before, make);
    if t.concrete {
      MadeStays(before, p, t, more, u, s);
    }
  }

  lemma MadeStays(before: Cached, p: Ptr, t: UiType, more: seq<Op>, u: UiType, s: bool)
    requires CacheAgrees(before) && Mirror(before.world) && Numbered(before.world) && before.world.dying == {}
    requires p != 0 && p !in before.world.handles && t.concrete && AllUsual(more)
    ensures var o := before.world.born;
            var after := CachedRun(CachedStep(before, Make(p, t, false, true)).0, more).0;
            o in after.world.strong ==>
              CachedStep(after, Make(p, u, false, s)).1
              == if u.id == t.id || u.id in t.bases then Object(o) else Mismatch
  {
    var o, make := before.world.born, Make(p, t, false, true);
    var made := CachedStep(before, make).0;
    var after := CachedRun(made, more).0;
    StepAgrees(before, make);
    FirstMake(before.world, p, t, true);
    UsualStep(before.world, make);
    StepKeepsMirrorIff(before.world, make);
    RunAgrees(made, more);
    UsualNeverBreaks(made.world, more);
    RunKeepsMirror(made.world, more);
    if o in after.world.strong {
      RunKeepsWrapper(made.world, more, o);
      NextMake(after.world, p, o, u, s);
      StepAgrees(after, Make(p, u, false, s));
    }
  }

  /* ---- Cleaning up ---- */

  /** Forgetting a pointer cleans up its wrapper exactly if that is alive, and leaves it without an entry. */
  lemma ForgetCleansUp(w: World, p: Ptr)
    ensures var v := PlainStep(w, Forget(p)).0;
            && Find(v, p) == None && (forall q | q != p :: Find(v, q) == Find(w, q))
            && v.cleaned
               == w.cleaned + if p in w.handles && w.handles[p] in w.strong then [w.handles[p]] else []
  {
  }

  lemma UsualCleansNobody(w: World, op: Op)
    requires Mirror(w) && Numbered(w) && w.dying == {} && Usual(op)
    ensures PlainStep(w, op).0.cleaned == w.cleaned
  {
    match op
    case Make(search, _, _, _) =>
      if search in w.handles {
        assert Exists(w, w.handles[search]);
      }
    case Lookup(h) =>
      if h in w.handles {
        assert Exists(w, w.handles[h]);
      }
    case Release(o, _) =>
      if o in w.strong && AssocOf(w, o) != 0 {
        assert Exists(w, o);
      }
    case _ =>
  }

  /** Over a run of usual calls `cleanup()` is called for nobody: a wrapper goes with its last reference. */
  lemma {:induction false} UsualRunCleansNobody(w: World, ops: seq<Op>)
    requires Mirror(w) && Numbered(w) && w.dying == {} && AllUsual(ops)
    ensures PlainRun(w, ops).0.cleaned == w.cleaned
    decreases |ops|
  {
    if ops != [] {
      assert ops[0] in ops && forall op | op in ops[1..] :: op in ops;
      UsualCleansNobody(w, ops[0]);
      UsualStep(w, ops[0]);
      StepKeepsMirrorIff(w, ops[0]);
      UsualRunCleansNobody(PlainStep(w, ops[0]).0, ops[1..]);
    }
  }

  /* ---- References ---- */

  /** The references on `o` that the callers gain or give back by one call: one for being handed the object, or
      for the `make` that raised over it, and one for each reference taken or released. */
  function Delta(w: World, op: Op, o: Obj): int {
    match op
    case Make(search, _, _, _) =>
      var answer := PlainStep(w, op).1;
      if answer == Object(o) || (answer == Mismatch && Find(w, search) == Some(o)) then 1 else 0
    case Lookup(_) => if PlainStep(w, op).1 == Object(o) then 1 else 0
    case Retain(x) => if x == o && o in w.strong then 1 else 0
    case Release(x, _) => if x == o && o in w.strong then -1 else 0
    case _ => 0
  }

  function Balance(w: World, ops: seq<Op>, o: Obj): int
    decreases |ops|
  {
    if ops == [] then 0 else Delta(w, ops[0], o) + Balance(PlainStep(w, ops[0]).0, ops[1..], o)
  }

  function StrongCount(w: World, o: Obj): nat {
    if o in w.strong then w.strong[o] else 0
  }

  ghost predicate Counted(w: World) {
    Numbered(w) && forall o: Obj | o in w.strong :: w.strong[o] > 0
  }

  lemma NumberedStays(w: World, op: Op)
    requires Numbered(w)
    ensures Numbered(PlainStep(w, op).0)
  {
    WrappersAfter(w, op);
    if op.Make? || op.Lookup? {
      LookupKeeps(w, if op.Make? then op.search else op.handle);
    }
  }

  lemma CountedStays(w: World, op: Op)
    requires Counted(w)
    ensures Counted(PlainStep(w, op).0)
  {
    NumberedStays(w, op);
    WrappersAfter(w, op);
    if op.Make? || op.Lookup? {
      LookupKeeps(w, if op.Make? then op.search else op.handle);
    }
  }

  lemma MakeCounts(w: World, op: Op, o: Obj)
    requires Counted(w) && op.Make?
    ensures StrongCount(PlainStep(w, op).0, o) == StrongCount(w, o) + Delta(w, op, o)
  {
    WrappersAfter(w, op);
    LookupKeeps(w, op.search);
  }

  lemma StepCounts(w: World, op: Op, o: Obj)
    requires Counted(w)
    ensures StrongCount(PlainStep(w, op).0, o) == StrongCount(w, o) + Delta(w, op, o)
  {
    match op
    case Make(_, _, _, _) => MakeCounts(w, op, o);
    case Lookup(h) => LookupKeeps(w, h);
    case _ => WrappersAfter(w, op);
  }

  lemma {:induction false} RunCounts(w: World, ops: seq<Op>, o: Obj)
    requires Counted(w)
    ensures Counted(PlainRun(w, ops).0)
    ensures StrongCount(PlainRun(w, ops).0, o) == StrongCount(w, o) + Balance(w, ops, o)
    decreases |ops|
  {
    if ops != [] {
      CountedStays(w, ops[0]);
      StepCounts(w, ops[0], o);
      RunCounts(PlainStep(w, ops[0]).0, ops[1..], o);
    }
  }

  /** Over every run a wrapper has as many references as its callers hold, and it lives exactly as long as they
      hold one. */
  lemma ReferencesAreTheCallers(ops: seq<Op>, o: Obj)
    ensures var w := CachedRun(START, ops).0.world;
            StrongCount(w, o) == Balance(EMPTY, ops, o) && (o in w.strong <==> Balance(EMPTY, ops, o) > 0)
  {
    CacheIsInvisible(ops);
    RunCounts(EMPTY, ops, o);
  }
}
