/** The objects of the association manager: the same steps as in `AssocWorld`, with every reference count
    raised and dropped where the source does it, under either of Python's two protocols. */
module AssocManager {
  import opened Wrappers
  import opened AssocWorld

  /** The part of the interpreter that the manager touches. */
  class Interpreter {
    const strongReferences: bool     // Python 3.13 and later: `PyWeakref_GetRef`
    var strong: map<Obj, nat>
    var weak: map<Obj, int>
    var dying: set<Obj>
    var assoc: map<Obj, Ptr>
    var kind: map<Obj, UiType>
    var born: nat
    var cleaned: seq<Obj>

    /** A live object has references. */
    ghost predicate Valid()
      reads this
    {
      && (forall o: Obj | o in strong :: strong[o] > 0)
      && (forall o: Obj | o in strong :: o < born)
    }

    constructor (strongReferences: bool)
      ensures Valid() && this.strongReferences == strongReferences
      ensures strong == map[] && weak == map[] && dying == {} && assoc == map[] && kind == map[] && born == 0
      ensures cleaned == []
    {
      this.strongReferences := strongReferences;
      strong, weak, dying, assoc, kind, born, cleaned := map[], map[], {}, map[], map[], 0, [];
    }

    /** `Py_INCREF` of a live object. */
    method IncRef(o: Obj)
      requires Valid() && o in strong
      modifies this`strong
      ensures Valid() && strong == old(strong)[o := old(strong)[o] + 1]
    {
      strong := strong[o := strong[o] + 1];
    }

    /** `Py_DECREF` of an object that others hold too. */
    method DecRef(o: Obj)
      requires Valid() && o in strong && strong[o] > 1
      modifies this`strong
      ensures Valid() && strong == old(strong)[o := old(strong)[o] - 1]
    {
      strong := strong[o := strong[o] - 1];
    }

    method AddWeak(o: Obj, change: int)
      modifies this`weak
      ensures weak == old(weak)[o := (if o in old(weak) then old(weak)[o] else 0) + change]
    {
      weak := weak[o := (if o in weak then weak[o] else 0) + change];
    }
  }

  class CAssocManager {
    const py: Interpreter
    var handles: map<Ptr, Obj>
    var lastLookup: Ptr
    var lastObjectWeakRef: Option<Obj>

    function View(): Cached
      reads this, py
    {
      Cached(World(handles, py.weak, py.strong, py.dying, py.assoc, py.kind, py.born, py.cleaned),
             lastLookup, lastObjectWeakRef)
    }

    constructor (py: Interpreter)
      requires py.Valid() && py.strong == map[] && py.weak == map[] && py.dying == {} && py.assoc == map[]
      requires py.kind == map[] && py.born == 0 && py.cleaned == []
      ensures this.py == py && View() == START
    {
      this.py := py;
      handles, lastLookup, lastObjectWeakRef := map[], 0, None;
    }

    /** Let the object of a removed entry go: clean it up if it is alive, and give the weak reference back. */
    method LetGo(weakref: Obj)
      requires py.Valid()
      modifies py`strong, py`cleaned, py`weak
      ensures py.Valid()
      ensures py.strong == old(py.strong)
      ensures py.cleaned == if weakref in old(py.strong) then old(py.cleaned) + [weakref] else old(py.cleaned)
      ensures py.weak == old(py.weak)[weakref := (if weakref in old(py.weak) then old(py.weak)[weakref] else 0) - 1]
    {
      if py.strongReferences {
        if weakref in py.strong {
          py.IncRef(weakref);
          py.cleaned := py.cleaned + [weakref];
          py.DecRef(weakref);
          assert py.strong == old(py.strong);
        }
      } else if weakref in py.strong {
        py.cleaned := py.cleaned + [weakref];
      }
      py.AddWeak(weakref, -1);
    }

    method RemoveAssoc(handle: Ptr)
      requires py.Valid()
      modifies this, py`strong, py`cleaned, py`weak
      ensures py.Valid()
      ensures View() == Invalidate(Discard(old(View()).world, handle))
    {
      if handle in handles {
        var weakref := handles[handle];
        handles := handles - {handle};
        LetGo(weakref);
      }
      lastObjectWeakRef := None;
      lastLookup := 0;
    }

    method Assoc(handle: Ptr, wrapper: Option<Obj>, refOk: bool)
      requires py.Valid()
      modifies this, py`strong, py`cleaned, py`weak
      ensures py.Valid()
      ensures View() == Invalidate(if wrapper.Some? then Register(old(View()).world, handle, wrapper.value, refOk)
                                   else Discard(old(View()).world, handle))
    {
      RemoveAssoc(handle);
      if wrapper.Some? && refOk {
        py.AddWeak(wrapper.value, 1);
        handles := handles[handle := wrapper.value];
      }
    }

    /** Turn a weak reference into an wrapper with one new reference, under the protocol at hand. */
    method Strengthen(weakref: Obj) returns (ret: Option<Obj>)
      requires py.Valid()
      modifies py`strong
      ensures py.Valid()
      ensures ret == if weakref in old(py.strong) then Some(weakref) else None
      ensures py.strong == if weakref in old(py.strong)
                           then old(py.strong)[weakref := old(py.strong)[weakref] + 1] else old(py.strong)
    {
      if weakref !in py.strong {
        return None;
      }
      if py.strongReferences {
        py.IncRef(weakref);          // `PyWeakref_GetRef`
        py.IncRef(weakref);
        py.DecRef(weakref);
      } else {
        py.IncRef(weakref);
      }
      ret := Some(weakref);
    }

    /** The wrapper of a pointer, with a new reference. */
    method GetAssocObject(handle: Ptr) returns (ret: Option<Obj>)
      requires py.Valid()
      modifies this, py`strong, py`cleaned, py`weak
      ensures py.Valid()
      ensures (View(), ret) == CachedLookup(old(View()), handle)
    {
      if handle == 0 {
        return None;
      }
      var weakref: Option<Obj>;
      if lastLookup == handle {
        weakref := lastObjectWeakRef;
      } else {
        weakref := if handle in handles then Some(handles[handle]) else None;
        lastLookup := handle;
        lastObjectWeakRef := weakref;
      }
      if weakref == None {
        return None;
      }
      ret := Strengthen(weakref.value);
      if ret == None {
        Assoc(handle, None, true);
      }
    }

    /** The part of `make` that makes a new wrapper. */
    method Create(search: Ptr, want: UiType, refOk: bool) returns (n: Obj)
      requires py.Valid()
      modifies this, py
      ensures py.Valid()
      ensures n == old(py.born)
      ensures View() == Invalidate(Created(old(View()).world, search, want, refOk))
    {
      n := py.born;
      py.strong, py.assoc, py.kind := py.strong[n := 1], py.assoc[n := 0], py.kind[n := want];
      py.born := n + 1;
      Assoc(search, Some(n), refOk);
      py.assoc := py.assoc[n := search];
    }

    /** `ui_assoc_object::make`. */
    method Make(search: Ptr, want: UiType, skipLookup: bool, refOk: bool) returns (ret: Answer)
      requires py.Valid()
      modifies this, py
      ensures py.Valid()
      ensures (View(), ret) == CachedStep(old(View()), Op.Make(search, want, skipLookup, refOk))
    {
      var found: Option<Obj> := None;
      if !skipLookup {
        found := GetAssocObject(search);
      }
      if found.Some? {
        return if IsUiObject(View().world, found.value, want) then Object(found.value) else Mismatch;
      }
      if !want.concrete {
        return NoConstructor;
      }
      var n := Create(search, want, refOk);
      ret := Object(n);
    }

    /** `~ui_assoc_object`. */
    method Destroy(o: Obj)
      requires py.Valid() && o in py.dying && o !in py.strong
      modifies this, py
      ensures py.Valid()
      ensures View() == CachedBurial(old(View()), o)
    {
      if o in py.assoc && py.assoc[o] != 0 {
        Assoc(py.assoc[o], None, true);
      }
      py.assoc := py.assoc - {o};
      py.dying := py.dying - {o};
    }

    /** Dropping a reference; the last one deallocates the wrapper: `sui_dealloc` clears its weak
        references and runs the destructor, to its end or to where Python code takes over. */
    method Release(o: Obj, finishes: bool)
      requires py.Valid() && o in py.strong
      modifies this, py
      ensures py.Valid()
      ensures View() == CachedStep(old(View()), Op.Release(o, finishes)).0
    {
      if py.strong[o] > 1 {
        py.DecRef(o);
        return;
      }
      py.strong := py.strong - {o};
      py.dying := py.dying + {o};
      if finishes {
        Destroy(o);
      }
    }
  }
}
