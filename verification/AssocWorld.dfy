/** The association of C++ pointers with Python wrappers: the handle map with its one-entry cache, the
    reference counts, and the making and dying of wrappers. */
module AssocWorld {
  import opened Wrappers

  type Ptr = nat                     // 0 is NULL
  type Obj = nat                     // wrappers are numbered as they are born

  /** A wrapper type, with the types it derives from and whether it declares a constructor. */
  datatype UiType = UiType(id: nat, bases: set<nat>, concrete: bool)

  /** Python keeps one weak reference without a callback per object, so it is named by its target. */
  datatype World = World(
    handles: map<Ptr, Obj>,          // the handle map; its values are weak references
    weak: map<Obj, int>,             // reference counts of the weak references
    strong: map<Obj, nat>,           // reference counts of the live wrappers
    dying: set<Obj>,                 // weak references cleared, destructor not finished
    assoc: map<Obj, Ptr>,            // the wrappers' `assoc` fields
    kind: map<Obj, UiType>,
    born: nat,
    cleaned: seq<Obj>)               // calls of `cleanup()`

  const EMPTY: World := World(map[], map[], map[], {}, map[], map[], 0, [])

  datatype Op =
    | Make(search: Ptr, want: UiType, skip: bool, refOk: bool)   // refOk: `PyWeakref_NewRef` succeeds
    | Lookup(handle: Ptr)
    | Forget(handle: Ptr)                                        // the C++ object is gone
    | Retain(o: Obj)
    | Release(o: Obj, finishes: bool)   // finishes: the destructor runs to its end at once
    | EndDeath(o: Obj)

  datatype Answer = Nothing | Object(o: Obj) | Mismatch | NoConstructor

  function WeakCount(w: World, o: Obj): int {
    if o in w.weak then w.weak[o] else 0
  }

  function Find(w: World, h: Ptr): Option<Obj> {
    if h in w.handles then Some(w.handles[h]) else None
  }

  function KindOf(w: World, o: Obj): UiType {
    if o in w.kind then w.kind[o] else UiType(0, {}, false)
  }

  predicate IsUiObject(w: World, o: Obj, want: UiType) {
    want.id == KindOf(w, o).id || want.id in KindOf(w, o).bases
  }

  /** `RemoveAssoc`, without the cache. */
  function Discard(w: World, h: Ptr): World {
    if h !in w.handles then w
    else
      var o := w.handles[h];
      w.(handles := w.handles - {h},
         weak := w.weak[o := WeakCount(w, o) - 1],
         cleaned := if o in w.strong then w.cleaned + [o] else w.cleaned)
  }

  /** `Assoc` of an object, without the cache. */
  function Register(w: World, h: Ptr, o: Obj, refOk: bool): World {
    var v := Discard(w, h);
    if refOk then v.(handles := v.handles[h := o], weak := v.weak[o := WeakCount(v, o) + 1]) else v
  }

  /** What `GetAssocObject` does with the weak reference it found. */
  function Resolve(w: World, h: Ptr, found: Option<Obj>): (World, Option<Obj>) {
    match found
    case None => (w, None)
    case Some(o) =>
      if o in w.strong then (w.(strong := w.strong[o := w.strong[o] + 1]), Some(o)) else (Discard(w, h), None)
  }

  function PlainLookup(w: World, h: Ptr): (World, Option<Obj>) {
    if h == 0 then (w, None) else Resolve(w, h, Find(w, h))
  }

  /** A new wrapper for a pointer. */
  function Created(w: World, search: Ptr, want: UiType, refOk: bool): World {
    var n := w.born;
    var v := w.(strong := w.strong[n := 1], assoc := w.assoc[n := 0], kind := w.kind[n := want], born := n + 1);
    var u := Register(v, search, n, refOk);
    u.(assoc := u.assoc[n := search])
  }

  /** The first half of deallocation: Python clears the weak references. */
  function BeginDeath(w: World, o: Obj): World {
    w.(strong := w.strong - {o}, dying := w.dying + {o})
  }

  function Retained(w: World, o: Obj): World {
    if o in w.strong then w.(strong := w.strong[o := w.strong[o] + 1]) else w
  }

  function AssocOf(w: World, o: Obj): Ptr {
    if o in w.assoc then w.assoc[o] else 0
  }

  /** The second half: the destructor takes the pointer out of the map, whoever is there by then. */
  function Buried(w: World, o: Obj): World {
    var v := if AssocOf(w, o) == 0 then w else Discard(w, AssocOf(w, o));
    v.(dying := v.dying - {o}, assoc := v.assoc - {o})
  }

  function Released(w: World, o: Obj): World {
    if o !in w.strong then w
    else if w.strong[o] > 1 then w.(strong := w.strong[o := w.strong[o] - 1])
    else BeginDeath(w, o)
  }

  predicate Dies(w: World, o: Obj) {
    o in w.strong && w.strong[o] <= 1
  }

  function AsAnswer(got: Option<Obj>): Answer {
    match got case None => Nothing case Some(o) => Object(o)
  }

  /** The rest of `make`, once the lookup has answered. */
  function MakeFrom(w: World, got: Option<Obj>, search: Ptr, want: UiType, refOk: bool): (World, Answer) {
    match got
    case Some(o) => (w, if IsUiObject(w, o, want) then Object(o) else Mismatch)
    case None => if want.concrete then (Created(w, search, want, refOk), Object(w.born)) else (w, NoConstructor)
  }

  /* ---- Without the cache ---- */

  function PlainStep(w: World, op: Op): (World, Answer) {
    match op
    case Make(search, want, skip, refOk) =>
      var (v, got) := if skip then (w, None) else PlainLookup(w, search);
      MakeFrom(v, got, search, want, refOk)
    case Lookup(h) => var (v, got) := PlainLookup(w, h); (v, AsAnswer(got))
    case Forget(h) => (Discard(w, h), Nothing)
    case Retain(o) => (Retained(w, o), Nothing)
    case Release(o, finishes) =>
      (if Dies(w, o) && finishes then Buried(Released(w, o), o) else Released(w, o), Nothing)
    case EndDeath(o) => (if o in w.dying then Buried(w, o) else w, Nothing)
  }

  function PlainRun(w: World, ops: seq<Op>): (World, seq<Answer>)
    decreases |ops|
  {
    if ops == [] then (w, [])
    else
      var (v, a) := PlainStep(w, ops[0]);
      var (u, rest) := PlainRun(v, ops[1..]);
      (u, [a] + rest)
  }

  /* ---- With the cache ---- */

  datatype Cached = Cached(world: World, lastLookup: Ptr, lastWeak: Option<Obj>)

  const START: Cached := Cached(EMPTY, 0, None)

  function Invalidate(w: World): Cached {
    Cached(w, 0, None)
  }

  /** `GetAssocObject`. */
  function CachedLookup(c: Cached, h: Ptr): (Cached, Option<Obj>) {
    if h == 0 then (c, None)
    else
      var found := if c.lastLookup == h then c.lastWeak else Find(c.world, h);
      var (w, got) := Resolve(c.world, h, found);
      if found.Some? && got.None? then (Invalidate(w), None) else (Cached(w, h, found), got)
  }

  /** The destructor touches the cache only if the wrapper still has a pointer. */
  function CachedBurial(c: Cached, o: Obj): Cached {
    if AssocOf(c.world, o) == 0 then c.(world := Buried(c.world, o)) else Invalidate(Buried(c.world, o))
  }

  function CachedStep(c: Cached, op: Op): (Cached, Answer) {
    match op
    case Make(search, want, skip, refOk) =>
      var (d, got) := if skip then (c, None) else CachedLookup(c, search);
      var (w, answer) := MakeFrom(d.world, got, search, want, refOk);
      (if got.None? && want.concrete then Invalidate(w) else d.(world := w), answer)
    case Lookup(h) => var (d, got) := CachedLookup(c, h); (d, AsAnswer(got))
    case Forget(h) => (Invalidate(Discard(c.world, h)), Nothing)
    case Retain(o) => (c.(world := Retained(c.world, o)), Nothing)
    case Release(o, finishes) =>
      var d := c.(world := Released(c.world, o));
      (if Dies(c.world, o) && finishes then CachedBurial(d, o) else d, Nothing)
    case EndDeath(o) => (if o in c.world.dying then CachedBurial(c, o) else c, Nothing)
  }

  function CachedRun(c: Cached, ops: seq<Op>): (Cached, seq<Answer>)
    decreases |ops|
  {
    if ops == [] then (c, [])
    else
      var (d, a) := CachedStep(c, ops[0]);
      var (e, rest) := CachedRun(d, ops[1..]);
      (e, [a] + rest)
  }
}
