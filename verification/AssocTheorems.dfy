/** What holds of the association manager over every run. */
module AssocTheorems {
  import opened Wrappers
  import opened AssocWorld

  /* ---- The cache ---- */

  /** A filled cache holds what the map holds, "no object" included. */
  predicate CacheAgrees(c: Cached) {
    if c.lastLookup == 0 then c.lastWeak == None else c.lastWeak == Find(c.world, c.lastLookup)
  }

  lemma LookupAgrees(c: Cached, h: Ptr)
    requires CacheAgrees(c)
    ensures var (d, got) := CachedLookup(c, h);
            CacheAgrees(d) && (d.world, got) == PlainLookup(c.world, h)
  {
  }

  lemma StepAgrees(c: Cached, op: Op)
    requires CacheAgrees(c)
    ensures var (d, answer) := CachedStep(c, op);
            CacheAgrees(d) && (d.world, answer) == PlainStep(c.world, op)
  {
    if op.Make? && !op.skip {
      LookupAgrees(c, op.search);
    }
  }

  lemma {:induction false} RunAgrees(c: Cached, ops: seq<Op>)
    requires CacheAgrees(c)
    ensures var (d, answers) := CachedRun(c, ops);
            CacheAgrees(d) && (d.world, answers) == PlainRun(c.world, ops)
    decreases |ops|
  {
    if ops != [] {
      StepAgrees(c, ops[0]);
      RunAgrees(CachedStep(c, ops[0]).0, ops[1..]);
    }
  }

  /** The cache never changes an answer: every run with it gives the answers, and leaves the map, the
      wrappers and the counts, of the run in which every lookup goes to the map. */
  lemma CacheIsInvisible(ops: seq<Op>)
    ensures var (c, answers) := CachedRun(START, ops);
            (c.world, answers) == PlainRun(EMPTY, ops)
  {
    RunAgrees(START, ops);
  }

  /** Inside `RemoveAssoc`, after the key has left the map and while `cleanup()` of its live object runs,
      the cache is still filled: a lookup made from there is answered wrongly exactly if it asks for that
      very pointer and the pointer was also the last one looked up. */
  lemma CleanupWindowIff(c: Cached, h: Ptr, k: Ptr)
    requires CacheAgrees(c) && k != 0 && h in c.world.handles && c.world.handles[h] in c.world.strong
    ensures var mid := c.(world := c.world.(handles := c.world.handles - {h}));
            CachedLookup(mid, k).1 == PlainLookup(mid.world, k).1 <==> !(k == h && h == c.lastLookup)
  {
  }

  /* ---- Weak references ---- */

  function Holders(m: map<Ptr, Obj>, o: Obj): set<Ptr> {
    set p | p in m && m[p] == o
  }

  /** The map owns exactly one reference to a weak reference for each entry that holds it. */
  ghost predicate WeakOwned(w: World) {
    forall o :: WeakCount(w, o) == |Holders(w.handles, o)|
  }

  lemma HoldersPut(m: map<Ptr, Obj>, p: Ptr, x: Obj, o: Obj)
    requires p !in m
    ensures |Holders(m[p := x], o)| == |Holders(m, o)| + (if x == o then 1 else 0)
  {
    assert Holders(m[p := x], o) == if x == o then Holders(m, o) + {p} else Holders(m, o);
  }

  lemma HoldersDrop(m: map<Ptr, Obj>, p: Ptr, o: Obj)
    requires p in m
    ensures |Holders(m - {p}, o)| == |Holders(m, o)| - (if m[p] == o then 1 else 0)
  {
    assert Holders(m - {p}, o) == if m[p] == o then Holders(m, o) - {p} else Holders(m, o);
    assert m[p] == o ==> p in Holders(m, o);
  }

  lemma DiscardKeepsWeak(w: World, h: Ptr)
    requires WeakOwned(w)
    ensures WeakOwned(Discard(w, h))
  {
    if h in w.handles {
      forall o ensures WeakCount(Discard(w, h), o) == |Holders(Discard(w, h).handles, o)| {
        HoldersDrop(w.handles, h, o);
      }
    }
  }

  lemma RegisterKeepsWeak(w: World, h: Ptr, x: Obj, refOk: bool)
    requires WeakOwned(w)
    ensures WeakOwned(Register(w, h, x, refOk))
  {
    DiscardKeepsWeak(w, h);
    if refOk {
      var v := Discard(w, h);
      forall o ensures WeakCount(Register(w, h, x, true), o) == |Holders(Register(w, h, x, true).handles, o)| {
        HoldersPut(v.handles, h, x, o);
      }
    }
  }

  lemma SameMapKeepsWeak(w: World, v: World)
    requires WeakOwned(w) && v.handles == w.handles && v.weak == w.weak
    ensures WeakOwned(v)
  {
    forall o ensures WeakCount(v, o) == |Holders(v.handles, o)| {
      assert WeakCount(w, o) == |Holders(w.handles, o)|;
    }
  }

  lemma CreatedKeepsWeak(w: World, search: Ptr, want: UiType, refOk: bool)
    requires WeakOwned(w)
    ensures WeakOwned(Created(w, search, want, refOk))
  {
    var n := w.born;
    var v := w.(strong := w.strong[n := 1], assoc := w.assoc[n := 0], kind := w.kind[n := want], born := n + 1);
    SameMapKeepsWeak(w, v);
    RegisterKeepsWeak(v, search, n, refOk);
    SameMapKeepsWeak(Register(v, search, n, refOk), Created(w, search, want, refOk));
  }

  lemma LookupKeepsWeak(w: World, h: Ptr)
    requires WeakOwned(w)
    ensures WeakOwned(PlainLookup(w, h).0)
  {
    DiscardKeepsWeak(w, h);
    if h != 0 && h in w.handles && w.handles[h] in w.strong {
      SameMapKeepsWeak(w, PlainLookup(w, h).0);
    }
  }

  lemma BuriedKeepsWeak(w: World, o: Obj)
    requires WeakOwned(w)
    ensures WeakOwned(Buried(w, o))
  {
    DiscardKeepsWeak(w, AssocOf(w, o));
    var v := if AssocOf(w, o) == 0 then w else Discard(w, AssocOf(w, o));
    SameMapKeepsWeak(v, Buried(w, o));
  }

  lemma StepKeepsWeak(w: World, op: Op)
    requires WeakOwned(w)
    ensures WeakOwned(PlainStep(w, op).0)
  {
    match op
    case Make(search, want, skip, refOk) =>
      if !skip {
        LookupKeepsWeak(w, search);
        CreatedKeepsWeak(PlainLookup(w, search).0, search, want, refOk);
      } else {
        CreatedKeepsWeak(w, search, want, refOk);
      }
    case Lookup(h) => LookupKeepsWeak(w, h);
    case Forget(h) => DiscardKeepsWeak(w, h);
    case Retain(o) => SameMapKeepsWeak(w, Retained(w, o));
    case Release(o, _) =>
      SameMapKeepsWeak(w, Released(w, o));
      BuriedKeepsWeak(Released(w, o), o);
    case EndDeath(o) => BuriedKeepsWeak(w, o);
  }

  lemma {:induction false} RunKeepsWeak(w: World, ops: seq<Op>)
    requires WeakOwned(w)
    ensures WeakOwned(PlainRun(w, ops).0)
    decreases |ops|
  {
    if ops != [] {
      StepKeepsWeak(w, ops[0]);
      RunKeepsWeak(PlainStep(w, ops[0]).0, ops[1..]);
    }
  }

  /** After every run each weak reference has exactly one count per map entry that holds it, so none is
      released twice or leaked, and a weak reference in the cache is a current map value that is still
      owned, although the cache holds no count of its own. */
  lemma WeakReferencesAreConserved(ops: seq<Op>)
    ensures var c := CachedRun(START, ops).0;
            && (forall o :: WeakCount(c.world, o) == |Holders(c.world.handles, o)|)
            && (c.lastWeak.Some? ==>
                  && c.lastLookup in c.world.handles && c.world.handles[c.lastLookup] == c.lastWeak.value
                  && WeakCount(c.world, c.lastWeak.value) > 0)
  {
    RunAgrees(START, ops);
    RunKeepsWeak(EMPTY, ops);
    var c := CachedRun(START, ops).0;
    if c.lastWeak.Some? {
      assert c.lastLookup in Holders(c.world.handles, c.lastWeak.value);
    }
  }

  /* ---- One wrapper per pointer ---- */

  predicate Exists(w: World, o: Obj) {
    o in w.strong || o in w.dying
  }

  /** The handle map and the wrappers' `assoc` fields are inverse to each other. */
  ghost predicate Mirror(w: World) {
    && 0 !in w.handles
    && (forall p | p in w.handles :: Exists(w, w.handles[p]) && AssocOf(w, w.handles[p]) == p)
    && (forall o: Obj | Exists(w, o) && AssocOf(w, o) != 0 :: Find(w, AssocOf(w, o)) == Some(o))
  }

  /** Wrappers that are not born yet, and those that are gone, have left no trace. */
  ghost predicate Numbered(w: World) {
    && (forall o: Obj | o in w.strong :: o < w.born && o !in w.dying)
    && (forall o: Obj | o in w.dying :: o < w.born)
  }

  /** The calls that break the correspondence, by what a caller can see before the call: skipping the
      lookup for a pointer that has a wrapper, a wrapper for NULL, failing to create a weak reference,
      forgetting a pointer whose wrapper lives on, or asking for a pointer whose wrapper is half way
      through its destructor. */
  predicate Breaks(w: World, op: Op) {
    match op
    case Make(search, want, skip, refOk) =>
      if search == 0 then want.concrete && refOk
      else if search !in w.handles then want.concrete && !refOk
      else if skip then want.concrete
      else w.handles[search] !in w.strong
    case Lookup(h) => h in w.handles && w.handles[h] !in w.strong
    case Forget(h) => h in w.handles
    case _ => false
  }

  lemma DiscardBreaksMirror(w: World, h: Ptr)
    requires Mirror(w) && h in w.handles
    ensures !Mirror(Discard(w, h))
  {
    var o := w.handles[h];
    var v := Discard(w, h);
    assert Exists(v, o) && AssocOf(v, o) == h && Find(v, h) == None;
  }

  lemma LookupMirrorIff(w: World, h: Ptr)
    requires Mirror(w) && Numbered(w)
    ensures var v := PlainLookup(w, h).0;
            && Numbered(v)
            && (Mirror(v) <==> !(h in w.handles && w.handles[h] !in w.strong))
  {
    if h in w.handles && w.handles[h] !in w.strong {
      DiscardBreaksMirror(w, h);
    }
  }

  lemma CreatedIsNumbered(w: World, search: Ptr, want: UiType, refOk: bool)
    requires Numbered(w)
    ensures Numbered(Created(w, search, want, refOk))
  {
    var v := Created(w, search, want, refOk);
    assert v.strong == w.strong[w.born := 1] && v.dying == w.dying;
  }

  /** A new wrapper fits into the mirror unless its pointer is NULL, taken, or left unregistered. */
  lemma CreatedMirrorIff(w: World, search: Ptr, want: UiType, refOk: bool)
    requires Mirror(w) && Numbered(w)
    ensures Mirror(Created(w, search, want, refOk)) <==> if search == 0 then !refOk else search !in w.handles && refOk
  {
    var n := w.born;
    var v := Created(w, search, want, refOk);
    assert Exists(v, n) && AssocOf(v, n) == search;
    if search in w.handles {
      var o := w.handles[search];
      assert Exists(v, o) && AssocOf(v, o) == search && Find(v, search) != Some(o);
    }
  }

  lemma BuriedKeepsMirror(w: World, o: Obj)
    requires Mirror(w) && Numbered(w) && o in w.dying
    ensures Mirror(Buried(w, o)) && Numbered(Buried(w, o))
  {
  }

  lemma ReleasedKeepsMirror(w: World, o: Obj)
    requires Mirror(w) && Numbered(w)
    ensures Mirror(Released(w, o)) && Numbered(Released(w, o))
  {
  }

  /** Exactly the calls of `Breaks` break the correspondence. */
  lemma StepKeepsMirrorIff(w: World, op: Op)
    requires Mirror(w) && Numbered(w)
    ensures Numbered(PlainStep(w, op).0)
    ensures Mirror(PlainStep(w, op).0) <==> !Breaks(w, op)
  {
    match op
    case Make(search, want, skip, refOk) => MakeKeepsMirrorIff(w, search, want, skip, refOk);
    case Lookup(h) => LookupMirrorIff(w, h);
    case Forget(h) =>
      if h in w.handles {
        DiscardBreaksMirror(w, h);
      }
    case Retain(o) =>
    case Release(o, _) =>
      ReleasedKeepsMirror(w, o);
      if Dies(w, o) {
        BuriedKeepsMirror(Released(w, o), o);
      }
    case EndDeath(o) =>
      if o in w.dying {
        BuriedKeepsMirror(w, o);
      }
  }

  lemma MakeKeepsMirrorIff(w: World, search: Ptr, want: UiType, skip: bool, refOk: bool)
    requires Mirror(w) && Numbered(w)
    ensures var op := Make(search, want, skip, refOk);
            && Numbered(PlainStep(w, op).0)
            && (Mirror(PlainStep(w, op).0) <==> !Breaks(w, op))
  {
    CreatedIsNumbered(w, search, want, refOk);
    CreatedMirrorIff(w, search, want, refOk);
    LookupMirrorIff(w, search);
    if !skip && search in w.handles && w.handles[search] !in w.strong {
      StaleMake(w, search, want, refOk);
    }
  }

  /** A wrapper half way through its destructor loses its entry to whoever asks for its pointer. */
  lemma StaleMake(w: World, search: Ptr, want: UiType, refOk: bool)
    requires Mirror(w) && Numbered(w) && search in w.handles && w.handles[search] !in w.strong
    ensures var v := PlainStep(w, Make(search, want, false, refOk)).0;
            Numbered(v) && !Mirror(v)
  {
    var o := w.handles[search];
    var v := PlainStep(w, Make(search, want, false, refOk)).0;
    assert Exists(v, o) && AssocOf(v, o) == search && Find(v, search) != Some(o);
  }

  predicate EverBreaks(w: World, ops: seq<Op>)
    decreases |ops|
  {
    ops != [] && (Breaks(w, ops[0]) || EverBreaks(PlainStep(w, ops[0]).0, ops[1..]))
  }

  lemma {:induction false} RunKeepsMirror(w: World, ops: seq<Op>)
    requires Mirror(w) && Numbered(w) && !EverBreaks(w, ops)
    ensures Mirror(PlainRun(w, ops).0) && Numbered(PlainRun(w, ops).0)
    decreases |ops|
  {
    if ops != [] {
      StepKeepsMirrorIff(w, ops[0]);
      RunKeepsMirror(PlainStep(w, ops[0]).0, ops[1..]);
    }
  }

  /** After every run without such a call, a live wrapper is the only one for its pointer, and `make` on
      that pointer, for a type the wrapper has, hands out that same wrapper with one more reference and
      changes nothing else. */
  lemma OneWrapperPerPointer(ops: seq<Op>, o: Obj, want: UiType, refOk: bool)
    requires !EverBreaks(EMPTY, ops)
    requires var w := CachedRun(START, ops).0.world; o in w.strong && AssocOf(w, o) != 0 && IsUiObject(w, o, want)
    ensures var c := CachedRun(START, ops).0;
            var w := c.world;
            var (d, answer) := CachedStep(c, Make(AssocOf(w, o), want, false, refOk));
            && (forall x: Obj | x in w.strong && AssocOf(w, x) == AssocOf(w, o) :: x == o)
            && answer == Object(o)
            && d.world == w.(strong := w.strong[o := w.strong[o] + 1])
  {
    ReachedMirror(ops);
    var c := CachedRun(START, ops).0;
    forall x: Obj | x in c.world.strong && AssocOf(c.world, x) == AssocOf(c.world, o) ensures x == o {
      MirrorIsUnique(c.world, o, x);
    }
    MakeFindsLive(c, o, want, refOk);
  }

  lemma ReachedMirror(ops: seq<Op>)
    requires !EverBreaks(EMPTY, ops)
    ensures CacheAgrees(CachedRun(START, ops).0) && Mirror(CachedRun(START, ops).0.world)
  {
    RunAgrees(START, ops);
    RunKeepsMirror(EMPTY, ops);
  }

  lemma MirrorIsUnique(w: World, o: Obj, x: Obj)
    requires Mirror(w) && o in w.strong && x in w.strong && AssocOf(w, x) == AssocOf(w, o) != 0
    ensures x == o
  {
    assert Exists(w, o) && Exists(w, x);
  }

  lemma MakeFindsLive(c: Cached, o: Obj, want: UiType, refOk: bool)
    requires CacheAgrees(c) && Mirror(c.world) && o in c.world.strong && AssocOf(c.world, o) != 0
    requires IsUiObject(c.world, o, want)
    ensures var w := c.world;
            var (d, answer) := CachedStep(c, Make(AssocOf(w, o), want, false, refOk));
            answer == Object(o) && d.world == w.(strong := w.strong[o := w.strong[o] + 1])
  {
    assert Exists(c.world, o);
    LookupAgrees(c, AssocOf(c.world, o));
  }

  /* ---- Runs of the usual calls ---- */

  /** A wrapper is asked for by a real pointer with the lookup, its weak reference can be made, destructors
      run to their end, and no pointer is forgotten while its wrapper lives. */
  predicate Usual(op: Op) {
    match op
    case Make(search, _, skip, refOk) => search != 0 && !skip && refOk
    case Forget(_) => false
    case Release(_, finishes) => finishes
    case _ => true
  }

  lemma UsualStep(w: World, op: Op)
    requires Mirror(w) && w.dying == {} && Usual(op)
    ensures !Breaks(w, op) && PlainStep(w, op).0.dying == {}
  {
    if op.Make? && op.search in w.handles {
      assert Exists(w, w.handles[op.search]);
    }
    if op.Lookup? && op.handle in w.handles {
      assert Exists(w, w.handles[op.handle]);
    }
  }

  /** No run of the usual calls holds one that breaks the correspondence. */
  lemma {:induction false} UsualNeverBreaks(w: World, ops: seq<Op>)
    requires Mirror(w) && Numbered(w) && w.dying == {} && forall op | op in ops :: Usual(op)
    ensures !EverBreaks(w, ops) && PlainRun(w, ops).0.dying == {}
    decreases |ops|
  {
    if ops != [] {
      UsualStep(w, ops[0]);
      StepKeepsMirrorIff(w, ops[0]);
      UsualNeverBreaks(PlainStep(w, ops[0]).0, ops[1..]);
    }
  }

  /** So after every run of the usual calls a live wrapper is the only one for its pointer and is handed out
      again. */
  lemma UsualRunsKeepOneWrapper(ops: seq<Op>, o: Obj, want: UiType, refOk: bool)
    requires forall op | op in ops :: Usual(op)
    requires var w := CachedRun(START, ops).0.world; o in w.strong && AssocOf(w, o) != 0 && IsUiObject(w, o, want)
    ensures var c := CachedRun(START, ops).0;
            var w := c.world;
            var (d, answer) := CachedStep(c, Make(AssocOf(w, o), want, false, refOk));
            && (forall x: Obj | x in w.strong && AssocOf(w, x) == AssocOf(w, o) :: x == o)
            && answer == Object(o)
            && d.world == w.(strong := w.strong[o := w.strong[o] + 1])
  {
    UsualNeverBreaks(EMPTY, ops);
    OneWrapperPerPointer(ops, o, want, refOk);
  }

  /** And no map entry is of a wrapper that is not alive. */
  lemma UsualEntriesAreAlive(ops: seq<Op>, p: Ptr)
    requires forall op | op in ops :: Usual(op)
    requires p in CachedRun(START, ops).0.world.handles
    ensures var w := CachedRun(START, ops).0.world; w.handles[p] in w.strong && AssocOf(w, w.handles[p]) == p
  {
    UsualNeverBreaks(EMPTY, ops);
    ReachedMirror(ops);
    RunAgrees(START, ops);
    assert Exists(CachedRun(START, ops).0.world, CachedRun(START, ops).0.world.handles[p]);
  }

  /** Between clearing the weak references and removing the map entry the destructor can run Python code.
      If that code makes a wrapper for the same pointer, the destructor's end takes away the entry of the
      new wrapper, which stays alive and can no longer be found. */
  lemma NewWrapperLosesItsEntry(w: World, o: Obj, want: UiType)
    requires Mirror(w) && Numbered(w) && o in w.dying && AssocOf(w, o) != 0 && want.concrete
    ensures var p := AssocOf(w, o);
            var (v, answer) := PlainStep(w, Make(p, want, false, true));
            var u := PlainStep(v, EndDeath(o)).0;
            && answer == Object(w.born) && PlainLookup(v, p).1 == Some(w.born)
            && w.born in u.strong && AssocOf(u, w.born) == p && PlainLookup(u, p).1 == None
            && u.cleaned == w.cleaned + [w.born]
  {
    assert Exists(w, o);
  }

  /* ---- References handed out ---- */

  /** `GetAssocObject` nets one reference on the object it returns and none on any other, whatever the
      cache holds; an object is returned exactly if the map has a live one for the handle. */
  lemma LookupNetsOne(c: Cached, h: Ptr, x: Obj)
    requires CacheAgrees(c) && x in c.world.strong
    ensures var (d, got) := CachedLookup(c, h);
            && x in d.world.strong
            && d.world.strong[x] == c.world.strong[x] + (if got == Some(x) then 1 else 0)
            && (got == Some(x) <==> h != 0 && h in c.world.handles && c.world.handles[h] == x)
  {
    LookupAgrees(c, h);
  }

  /** `make` for a pointer whose wrapper is of another type raises and keeps the reference it took: the
      wrapper can never be freed again by those who hold it. */
  lemma MismatchLeaksOne(c: Cached, search: Ptr, want: UiType, refOk: bool)
    requires CacheAgrees(c)
    ensures var (d, answer) := CachedStep(c, Make(search, want, false, refOk));
            answer == Mismatch <==>
              search != 0 && search in c.world.handles && c.world.handles[search] in c.world.strong
              && !IsUiObject(c.world, c.world.handles[search], want)
    ensures var (d, answer) := CachedStep(c, Make(search, want, false, refOk));
            answer == Mismatch ==>
              var o := c.world.handles[search];
              d.world == c.world.(strong := c.world.strong[o := c.world.strong[o] + 1])
  {
    LookupAgrees(c, search);
  }

  /* ---- Runs that get there ---- */

  /** A run into the window of `CleanupWindowIff`: a wrapper is made and looked up, and while it is cleaned
      up its pointer is asked for. */
  lemma ALookupThatIsWrong(t: UiType)
    requires t.concrete
    ensures var c := CachedRun(START, [Make(1, t, false, true), Lookup(1)]).0;
            var mid := c.(world := c.world.(handles := c.world.handles - {1}));
            && CacheAgrees(c) && 1 in c.world.handles && c.world.handles[1] in c.world.strong
            && CachedLookup(mid, 1).1 == Some(0) && PlainLookup(mid.world, 1).1 == None
  {
    var make, look := Make(1, t, false, true), Lookup(1);
    var c := CachedStep(START, make).0;
    assert [make, look][1..] == [look] && [look][1..] == [];
    assert CachedRun(c, [look]).0 == CachedStep(c, look).0;
    var d := CachedStep(c, look).0;
    assert d.world.handles == map[1 := 0] && 0 in d.world.strong && d.lastLookup == 1 && d.lastWeak == Some(0);
  }

  /** A run into the state of `NewWrapperLosesItsEntry`: the only wrapper loses its last reference. */
  lemma ADestructorHalfWay(t: UiType)
    requires t.concrete
    ensures var w := CachedRun(START, [Make(1, t, false, true), Release(0, false)]).0.world;
            Mirror(w) && Numbered(w) && 0 in w.dying && AssocOf(w, 0) == 1
  {
    var make, drop := Make(1, t, false, true), Release(0, false);
    assert [make, drop][1..] == [drop] && [drop][1..] == [];
    var c := CachedStep(START, make).0;
    assert CachedRun(c, [drop]).0 == CachedStep(c, drop).0;
    RunAgrees(START, [make, drop]);
    var v := PlainStep(EMPTY, make).0;
    assert !Breaks(EMPTY, make) && !Breaks(v, drop);
    assert !EverBreaks(v, [drop]);
    RunKeepsMirror(EMPTY, [make, drop]);
  }
}
