/** The DDE conversations of a server: the list, the conversations' handles, and the walk of `Shutdown`
    along a list that every visit shortens. */
module Conversations {
  import opened Wrappers

  type Conv = nat                    // conversation objects, numbered as they are made
  type Handle = nat                  // 0 is NULL

  datatype Server = Server(
    list: seq<Conv>,                 // m_ConvList
    handle: map<Conv, Handle>,       // m_hConv of every object
    open: set<Handle>,               // what DDEML holds open
    next: Handle,                    // the next handle DDEML gives out
    born: Conv,
    initialized: bool)

  /** What DDEML does on its own: each `DdeDisconnect` may deliver the disconnects of any other handles. */
  type Delivered = seq<Handle>

  datatype Op =
    | NewClient
    | ConnectConfirm                 // a client has connected to this server
    | ConnectTo(c: Conv, ok: bool, delivered: Delivered)   // ok: `DdeConnect` succeeds
    | Disconnect(h: Handle)          // the other side has hung up
    | Terminate(c: Conv, delivered: Delivered)

  const START: Server := Server([], map[], {}, 1, 0, true)

  function HandleOf(s: Server, c: Conv): Handle {
    if c in s.handle then s.handle[c] else 0
  }

  /** The first listed conversation with a handle, from a position on. */
  function FindFrom(s: Server, h: Handle, i: nat): Option<nat>
    requires i <= |s.list|
    decreases |s.list| - i
  {
    if i == |s.list| then None else if HandleOf(s, s.list[i]) == h then Some(i) else FindFrom(s, h, i + 1)
  }

  function Found(s: Server, h: Handle): Option<Conv> {
    match FindFrom(s, h, 0)
    case Some(i) => FindBound(s, h, 0); Some(s.list[i])
    case None => None
  }

  lemma FindBound(s: Server, h: Handle, i: nat)
    requires i <= |s.list|
    ensures FindFrom(s, h, i).Some? ==>
              i <= FindFrom(s, h, i).value < |s.list| && HandleOf(s, s.list[FindFrom(s, h, i).value]) == h
    ensures FindFrom(s, h, i) == None ==> forall k | i <= k < |s.list| :: HandleOf(s, s.list[k]) != h
    decreases |s.list| - i
  {
    if i < |s.list| && HandleOf(s, s.list[i]) != h {
      FindBound(s, h, i + 1);
    }
  }

  function Without<T>(list: seq<T>, i: nat): seq<T>
    requires i < |list|
  {
    list[..i] + list[i + 1..]
  }

  /** `RemoveConversation`. */
  function Removed(s: Server, h: Handle): Server {
    match FindFrom(s, h, 0)
    case Some(i) => FindBound(s, h, 0); s.(list := Without(s.list, i))
    case None => s
  }

  /** The disconnect callback. */
  function HungUp(s: Server, h: Handle): Server {
    Removed(s, h).(open := s.open - {h})
  }

  function AllHungUp(s: Server, hs: seq<Handle>): Server
    decreases |hs|
  {
    if hs == [] then s else AllHungUp(HungUp(s, hs[0]), hs[1..])
  }

  /** `DdeDisconnect`, with the disconnects it delivers. */
  function Disconnected(s: Server, h: Handle, delivered: Delivered): Server {
    AllHungUp(s.(open := s.open - {h}), delivered)
  }

  /** `CDDEConv::Terminate`. */
  function Terminated(s: Server, c: Conv, delivered: Delivered): Server {
    var h := HandleOf(s, c);
    if h == 0 then s
    else
      var t := Removed(Disconnected(s, h, delivered), h);
      t.(handle := t.handle[c := 0])
  }

  /** A conversation gets the next handle and goes to the end of the list. */
  function Listed(s: Server, c: Conv): Server {
    s.(handle := s.handle[c := s.next], open := s.open + {s.next}, next := s.next + 1, list := s.list + [c])
  }

  function Step(s: Server, op: Op): Server {
    match op
    case NewClient => s.(handle := s.handle[s.born := 0], born := s.born + 1)
    case ConnectConfirm => Listed(s.(born := s.born + 1), s.born)
    case ConnectTo(c, ok, delivered) =>
      if c >= s.born then s
      else
        var t := Terminated(s, c, delivered);
        if ok then Listed(t, c) else t
    case Disconnect(h) => HungUp(s, h)
    case Terminate(c, delivered) => Terminated(s, c, delivered)
  }

  function Run(s: Server, ops: seq<Op>): Server
    decreases |ops|
  {
    if ops == [] then s else Run(Step(s, ops[0]), ops[1..])
  }

  /* ---- The list and the handles ---- */

  predicate NoRepeats(list: seq<Conv>) {
    forall i, j | 0 <= i < j < |list| :: list[i] != list[j]
  }

  /** No two objects share a handle, listed or not; the stale handle of an object that was hung up counts. */
  predicate Injective(s: Server) {
    forall c, d | c in s.handle && d in s.handle && s.handle[c] == s.handle[d] != 0 :: c == d
  }

  predicate Inv(s: Server) {
    && NoRepeats(s.list) && Injective(s)
    && (forall c | c in s.list :: HandleOf(s, c) != 0)
    && (forall c | c in s.handle :: c < s.born && s.handle[c] < s.next)
    && s.next > 0
    && (forall h | h in s.open :: h < s.next)
  }

  /** DDEML's open handles are those of the listed conversations. */
  ghost predicate InStep(s: Server) {
    && (forall h | h in s.open :: exists c :: c in s.list && HandleOf(s, c) == h)
    && (forall c | c in s.list :: HandleOf(s, c) in s.open)
  }

  /** The entries of a list whose handles are not among those gone, in their order. */
  function Kept(list: seq<Conv>, handle: map<Conv, Handle>, gone: set<Handle>): seq<Conv> {
    if list == [] then []
    else
      (if (if list[0] in handle then handle[list[0]] else 0) in gone then [] else [list[0]])
      + Kept(list[1..], handle, gone)
  }

  lemma {:induction false} KeptMembers(list: seq<Conv>, handle: map<Conv, Handle>, gone: set<Handle>, c: Conv)
    ensures c in Kept(list, handle, gone) <==> c in list && (if c in handle then handle[c] else 0) !in gone
  {
    if list != [] {
      KeptMembers(list[1..], handle, gone, c);
      assert list == [list[0]] + list[1..];
    }
  }

  lemma {:induction false} KeptNoRepeats(list: seq<Conv>, handle: map<Conv, Handle>, gone: set<Handle>)
    requires NoRepeats(list)
    ensures NoRepeats(Kept(list, handle, gone))
    ensures |Kept(list, handle, gone)| <= |list|
  {
    if list != [] {
      KeptNoRepeats(list[1..], handle, gone);
      var rest := Kept(list[1..], handle, gone);
      KeptMembers(list[1..], handle, gone, list[0]);
      assert list[0] !in list[1..];
      assert forall j | 0 <= j < |rest| :: rest[j] in rest;
    }
  }

  lemma {:induction false} KeptTwice(list: seq<Conv>, handle: map<Conv, Handle>, a: set<Handle>, b: set<Handle>)
    ensures Kept(Kept(list, handle, a), handle, b) == Kept(list, handle, a + b)
  {
    if list != [] {
      KeptTwice(list[1..], handle, a, b);
      var rest := Kept(list[1..], handle, a);
      if (if list[0] in handle then handle[list[0]] else 0) in a {
        assert Kept(list, handle, a) == rest;
      } else {
        assert Kept(list, handle, a) == [list[0]] + rest;
        assert ([list[0]] + rest)[1..] == rest;
      }
    }
  }

  lemma {:induction false} KeptAll(list: seq<Conv>, handle: map<Conv, Handle>, gone: set<Handle>)
    requires forall i | 0 <= i < |list| :: (if list[i] in handle then handle[list[i]] else 0) !in gone
    ensures Kept(list, handle, gone) == list
  {
    if list != [] {
      KeptAll(list[1..], handle, gone);
      assert list == [list[0]] + list[1..];
    }
  }

  lemma {:induction false} KeptWithout(list: seq<Conv>, handle: map<Conv, Handle>, h: Handle, i: nat)
    requires i < |list| && (if list[i] in handle then handle[list[i]] else 0) == h
    requires forall k | 0 <= k < |list| && k != i :: (if list[k] in handle then handle[list[k]] else 0) != h
    ensures Kept(list, handle, {h}) == Without(list, i)
  {
    if i == 0 {
      KeptAll(list[1..], handle, {h});
      assert Without(list, 0) == list[1..];
    } else {
      KeptWithout(list[1..], handle, h, i - 1);
      assert Without(list, i) == [list[0]] + Without(list[1..], i - 1);
    }
  }

  /** The list is what it was but for the handles that are gone, which DDEML has closed as well. */
  predicate Shrunk(s: Server, t: Server, gone: set<Handle>) {
    t == s.(list := Kept(s.list, s.handle, gone), open := s.open - gone)
  }

  /** Removing takes away the one conversation with the handle. */
  lemma RemovedIs(s: Server, h: Handle)
    requires Inv(s)
    ensures Removed(s, h) == s.(list := Kept(s.list, s.handle, {h}))
  {
    FindBound(s, h, 0);
    if FindFrom(s, h, 0).Some? {
      var i := FindFrom(s, h, 0).value;
      assert s.list[i] in s.list;
      KeptWithout(s.list, s.handle, h, i);
    } else {
      KeptAll(s.list, s.handle, {h});
    }
  }

  lemma ShrunkKeepsInv(s: Server, t: Server, gone: set<Handle>)
    requires Inv(s) && Shrunk(s, t, gone)
    ensures Inv(t)
  {
    KeptNoRepeats(s.list, s.handle, gone);
    forall c | c in t.list ensures HandleOf(t, c) != 0 {
      KeptMembers(s.list, s.handle, gone, c);
    }
  }

  lemma ShrunkKeepsStep(s: Server, t: Server, gone: set<Handle>)
    requires InStep(s) && Shrunk(s, t, gone)
    ensures InStep(t)
  {
    forall x | x in t.open ensures exists c :: c in t.list && HandleOf(t, c) == x {
      var c :| c in s.list && HandleOf(s, c) == x;
      KeptMembers(s.list, s.handle, gone, c);
      assert c in t.list && HandleOf(t, c) == x;
    }
    forall c | c in t.list ensures HandleOf(t, c) in t.open {
      KeptMembers(s.list, s.handle, gone, c);
    }
  }

  lemma HungUpShrinks(s: Server, h: Handle)
    requires Inv(s)
    ensures Shrunk(s, HungUp(s, h), {h})
  {
    RemovedIs(s, h);
  }

  lemma ShrunkTwice(s: Server, t: Server, u: Server, a: set<Handle>, b: set<Handle>)
    requires Shrunk(s, t, a) && Shrunk(t, u, b)
    ensures Shrunk(s, u, a + b)
  {
    KeptTwice(s.list, s.handle, a, b);
    assert s.open - a - b == s.open - (a + b);
  }

  function Members(hs: seq<Handle>): set<Handle> {
    set k | k in hs
  }

  lemma MembersStep(hs: seq<Handle>)
    requires hs != []
    ensures Members(hs) == {hs[0]} + Members(hs[1..])
  {
    assert hs == [hs[0]] + hs[1..];
  }

  function Gone(h: Handle, delivered: Delivered): set<Handle> {
    Members(delivered) + {h}
  }

  lemma {:induction false} AllHungUpShrinks(s: Server, hs: seq<Handle>)
    requires Inv(s)
    ensures Shrunk(s, AllHungUp(s, hs), Members(hs))
    decreases |hs|
  {
    if hs == [] {
      KeptAll(s.list, s.handle, {});
      assert Members(hs) == {} && s.open - {} == s.open;
    } else {
      var t := HungUp(s, hs[0]);
      HungUpShrinks(s, hs[0]);
      ShrunkKeepsInv(s, t, {hs[0]});
      AllHungUpShrinks(t, hs[1..]);
      ShrunkTwice(s, t, AllHungUp(s, hs), {hs[0]}, Members(hs[1..]));
      MembersStep(hs);
    }
  }

  /** The list and the handles after `DdeDisconnect` and the removal that follows it. */
  lemma DisconnectShrinks(s: Server, h: Handle, delivered: Delivered)
    requires Inv(s)
    ensures Shrunk(s, Removed(Disconnected(s, h, delivered), h), Gone(h, delivered))
  {
    var s0 := s.(open := s.open - {h});
    var s1 := AllHungUp(s0, delivered);
    AllHungUpShrinks(s0, delivered);
    ShrunkKeepsInv(s0, s1, Members(delivered));
    RemovedIs(s1, h);
    KeptTwice(s.list, s.handle, Members(delivered), {h});
    assert s.open - {h} - Members(delivered) == s.open - Gone(h, delivered);
  }

  lemma TerminatedKeeps(s: Server, c: Conv, delivered: Delivered)
    requires Inv(s)
    ensures var t := Terminated(s, c, delivered);
            && Inv(t) && (InStep(s) ==> InStep(t)) && t.born == s.born && t.next == s.next
            && HandleOf(t, c) == 0 && c !in t.list
            && (forall d | d in t.list :: d in s.list)
  {
    var h := HandleOf(s, c);
    if h != 0 {
      var t := Removed(Disconnected(s, h, delivered), h);
      DisconnectShrinks(s, h, delivered);
      ShrunkKeepsInv(s, t, Gone(h, delivered));
      if InStep(s) {
        ShrunkKeepsStep(s, t, Gone(h, delivered));
      }
      KeptMembers(s.list, s.handle, Gone(h, delivered), c);
      forall d | d in t.list ensures d in s.list {
        KeptMembers(s.list, s.handle, Gone(h, delivered), d);
      }
      ForgetKeeps(t, c);
    }
  }

  /** An unlisted conversation forgets its handle. */
  lemma ForgetKeeps(t: Server, c: Conv)
    requires Inv(t) && c !in t.list && c in t.handle
    ensures var u := t.(handle := t.handle[c := 0]); Inv(u) && (InStep(t) ==> InStep(u))
  {
    var u := t.(handle := t.handle[c := 0]);
    assert forall d | d in t.list :: HandleOf(u, d) == HandleOf(t, d);
    ForgetInjective(t, c);
    if InStep(t) {
      SameKeeps(t, u);
    }
  }

  lemma ForgetInjective(t: Server, c: Conv)
    requires Injective(t)
    ensures Injective(t.(handle := t.handle[c := 0]))
  {
  }

  lemma ListedKeeps(s: Server, c: Conv)
    requires Inv(s) && c < s.born && c !in s.list
    ensures Inv(Listed(s, c)) && (InStep(s) ==> InStep(Listed(s, c)))
  {
    var t := Listed(s, c);
    forall d | d in t.list ensures HandleOf(t, d) != 0 {
      assert d in s.list || d == c;
    }
    if InStep(s) {
      ListedInStep(s, c);
    }
  }

  lemma ListedInStep(s: Server, c: Conv)
    requires InStep(s) && c !in s.list
    ensures InStep(Listed(s, c))
  {
    var t := Listed(s, c);
    assert t.list[|s.list|] == c;
    forall x | x in t.open ensures exists d :: d in t.list && HandleOf(t, d) == x {
      if x == s.next {
        assert c in t.list && HandleOf(t, c) == x;
      } else {
        var d :| d in s.list && HandleOf(s, d) == x;
        assert d in t.list && HandleOf(t, d) == x;
      }
    }
  }

  lemma ConfirmKeeps(s: Server)
    requires Inv(s) && InStep(s)
    ensures var t := Listed(s.(born := s.born + 1), s.born); Inv(t) && InStep(t)
  {
    var t := s.(born := s.born + 1);
    SameKeeps(s, t);
    assert HandleOf(s, s.born) == 0;
    ListedKeeps(t, s.born);
  }

  lemma ConnectKeeps(s: Server, c: Conv, ok: bool, delivered: Delivered)
    requires Inv(s) && InStep(s)
    ensures var t := Step(s, ConnectTo(c, ok, delivered)); Inv(t) && InStep(t)
  {
    TerminatedKeeps(s, c, delivered);
    if c < s.born && ok {
      ListedKeeps(Terminated(s, c, delivered), c);
    }
  }

  lemma StepKeeps(s: Server, op: Op)
    requires Inv(s) && InStep(s)
    ensures Inv(Step(s, op)) && InStep(Step(s, op))
  {
    match op
    case NewClient => NewClientKeeps(s);
    case ConnectConfirm => ConfirmKeeps(s);
    case ConnectTo(c, ok, delivered) => ConnectKeeps(s, c, ok, delivered);
    case Disconnect(h) =>
      HungUpShrinks(s, h);
      ShrunkKeepsInv(s, HungUp(s, h), {h});
      ShrunkKeepsStep(s, HungUp(s, h), {h});
    case Terminate(c, delivered) => TerminatedKeeps(s, c, delivered);
  }

  /** A reconnect first ends the conversation it had, whether or not the new connection comes about: the entries
      whose disconnects are delivered and its own leave the list and DDEML, the object goes to the end of the
      list with the next handle if the connection succeeds, and otherwise is left without a handle. */
  lemma ConnectReplaces(s: Server, c: Conv, ok: bool, delivered: Delivered)
    requires Inv(s) && InStep(s) && c < s.born
    ensures var t := Step(s, ConnectTo(c, ok, delivered));
            var gone := if HandleOf(s, c) == 0 then {} else Gone(HandleOf(s, c), delivered);
            && t.list == Kept(s.list, s.handle, gone) + (if ok then [c] else []) && c !in Kept(s.list, s.handle, gone)
            && t.open == s.open - gone + (if ok then {s.next} else {})
            && HandleOf(t, c) == (if ok then s.next else 0)
            && forall d | d != c :: HandleOf(t, d) == HandleOf(s, d)
  {
    var h := HandleOf(s, c);
    TerminatedKeeps(s, c, delivered);
    if h == 0 {
      KeptAll(s.list, s.handle, {});
      assert s.open - {} == s.open;
    } else {
      DisconnectShrinks(s, h, delivered);
    }
  }

  lemma SameKeeps(s: Server, t: Server)
    requires InStep(s) && t.list == s.list && t.open == s.open
    requires forall c | c in s.list :: HandleOf(t, c) == HandleOf(s, c)
    ensures InStep(t)
  {
    forall x | x in t.open ensures exists c :: c in t.list && HandleOf(t, c) == x {
      var c :| c in s.list && HandleOf(s, c) == x;
      assert c in t.list && HandleOf(t, c) == x;
    }
  }

  lemma NewClientKeeps(s: Server)
    requires Inv(s) && InStep(s)
    ensures var t := s.(handle := s.handle[s.born := 0], born := s.born + 1); Inv(t) && InStep(t)
  {
    var t := s.(handle := s.handle[s.born := 0], born := s.born + 1);
    forall c | c in s.list ensures HandleOf(t, c) == HandleOf(s, c) {
      assert HandleOf(s, c) != 0;
    }
    SameKeeps(s, t);
  }

  lemma {:induction false} RunKeeps(s: Server, ops: seq<Op>)
    requires Inv(s) && InStep(s)
    ensures Inv(Run(s, ops)) && InStep(Run(s, ops))
    decreases |ops|
  {
    if ops != [] {
      StepKeeps(s, ops[0]);
      RunKeeps(Step(s, ops[0]), ops[1..]);
    }
  }

  /** Over every run of connects, reconnects, hang-ups and terminations, whatever disconnects DDEML
      delivers on the way: every listed conversation is there once, with a handle of its own that is not
      NULL, and the listed handles are exactly those DDEML holds open. */
  lemma ListIsAHandleMap(ops: seq<Op>)
    ensures var s := Run(START, ops);
            && NoRepeats(s.list)
            && (forall c | c in s.list :: HandleOf(s, c) != 0)
            && (forall c, d | c in s.list && d in s.list && HandleOf(s, c) == HandleOf(s, d) :: c == d)
            && (forall h :: h in s.open <==> exists c :: c in s.list && HandleOf(s, c) == h)
  {
    RunKeeps(START, ops);
  }

  /** Walking the list finds for every handle the one listed conversation that has it, and nothing for
      NULL or for the stale handle of a conversation that was hung up. */
  lemma FindAgreesWithTheMap(ops: seq<Op>, h: Handle, c: Conv)
    ensures var s := Run(START, ops);
            && (Found(s, h) == Some(c) <==> c in s.list && HandleOf(s, c) == h)
            && (Found(s, h) == None <==> h !in s.open)
  {
    RunKeeps(START, ops);
    var s := Run(START, ops);
    FindBound(s, h, 0);
    if FindFrom(s, h, 0).Some? {
      assert s.list[FindFrom(s, h, 0).value] in s.list;
    }
  }

  /** A hang-up takes exactly the conversation with the handle off the list, and leaves every object its handle. */
  lemma HangUpIs(s: Server, h: Handle)
    requires Inv(s)
    ensures Step(s, Disconnect(h)) == s.(list := Kept(s.list, s.handle, {h}), open := s.open - {h})
  {
    RemovedIs(s, h);
  }

  /** A connection that fails does what a termination does. */
  lemma FailingConnectTerminates(s: Server, c: Conv, delivered: Delivered)
    requires c < s.born
    ensures Step(s, ConnectTo(c, false, delivered)) == Step(s, Terminate(c, delivered))
  {
  }

  /** The list holds the conversations in the order of their handles, that is in the order in which they
      connected. */
  predicate InOrder(s: Server) {
    forall i, j | 0 <= i < j < |s.list| :: HandleOf(s, s.list[i]) < HandleOf(s, s.list[j])
  }

  lemma {:induction false} KeptInOrder(s: Server, list: seq<Conv>, gone: set<Handle>)
    requires forall i, j | 0 <= i < j < |list| :: HandleOf(s, list[i]) < HandleOf(s, list[j])
    ensures InOrder(s.(list := Kept(list, s.handle, gone)))
  {
    if list != [] {
      KeptInOrder(s, list[1..], gone);
      var rest := Kept(list[1..], s.handle, gone);
      var t, u := s.(list := rest), s.(list := Kept(list, s.handle, gone));
      forall i | 0 <= i < |rest| ensures HandleOf(s, list[0]) < HandleOf(s, rest[i]) {
        KeptMembers(list[1..], s.handle, gone, rest[i]);
      }
      forall i, j | 0 <= i < j < |u.list| ensures HandleOf(u, u.list[i]) < HandleOf(u, u.list[j]) {
        assert InOrder(t);
        assert |u.list| == |rest| ==> u.list == t.list;
      }
    }
  }

  lemma ShrunkInOrder(s: Server, t: Server, gone: set<Handle>)
    requires InOrder(s) && Shrunk(s, t, gone)
    ensures InOrder(t)
  {
    KeptInOrder(s, s.list, gone);
    assert t == s.(list := Kept(s.list, s.handle, gone)).(open := t.open);
  }

  /** What the objects that are not listed hold does not matter. */
  lemma OthersInOrder(s: Server, t: Server)
    requires InOrder(s) && t.list == s.list && forall c | c in s.list :: HandleOf(t, c) == HandleOf(s, c)
    ensures InOrder(t)
  {
  }

  lemma ListedInOrder(s: Server, c: Conv)
    requires Inv(s) && InOrder(s) && c !in s.list
    ensures InOrder(Listed(s, c))
  {
    var t := Listed(s, c);
    forall i | 0 <= i < |s.list| ensures t.list[i] == s.list[i] && HandleOf(t, t.list[i]) == HandleOf(s, s.list[i]) {
      assert s.list[i] in s.list;
    }
    assert HandleOf(t, c) == s.next && forall d | d in s.list :: HandleOf(s, d) < s.next;
  }

  lemma TerminatedInOrder(s: Server, c: Conv, delivered: Delivered)
    requires Inv(s) && InOrder(s)
    ensures InOrder(Terminated(s, c, delivered))
  {
    var h := HandleOf(s, c);
    if h != 0 {
      var t := Removed(Disconnected(s, h, delivered), h);
      DisconnectShrinks(s, h, delivered);
      ShrunkInOrder(s, t, Gone(h, delivered));
      TerminatedKeeps(s, c, delivered);
      OthersInOrder(t, Terminated(s, c, delivered));
    }
  }

  lemma StepKeepsOrder(s: Server, op: Op)
    requires Inv(s) && InStep(s) && InOrder(s)
    ensures InOrder(Step(s, op))
  {
    match op
    case NewClient =>
      assert HandleOf(s, s.born) == 0;
      OthersInOrder(s, Step(s, op));
    case ConnectConfirm =>
      assert HandleOf(s, s.born) == 0;
      ListedInOrder(s.(born := s.born + 1), s.born);
    case ConnectTo(c, ok, delivered) =>
      TerminatedKeeps(s, c, delivered);
      TerminatedInOrder(s, c, delivered);
      if c < s.born && ok {
        ListedInOrder(Terminated(s, c, delivered), c);
      }
    case Disconnect(h) =>
      HungUpShrinks(s, h);
      ShrunkInOrder(s, HungUp(s, h), {h});
    case Terminate(c, delivered) => TerminatedInOrder(s, c, delivered);
  }

  lemma {:induction false} RunKeepsOrder(s: Server, ops: seq<Op>)
    requires Inv(s) && InStep(s) && InOrder(s)
    ensures InOrder(Run(s, ops))
    decreases |ops|
  {
    if ops != [] {
      StepKeeps(s, ops[0]);
      StepKeepsOrder(s, ops[0]);
      RunKeepsOrder(Step(s, ops[0]), ops[1..]);
    }
  }

  /** Over every run the listed conversations stand in the order in which they connected, those that reconnected
      by their last connection; this is the order in which `Shutdown` ends them. */
  lemma ListedInTheirOrder(ops: seq<Op>, i: nat, j: nat)
    ensures var s := Run(START, ops); i < j < |s.list| ==> HandleOf(s, s.list[i]) < HandleOf(s, s.list[j])
  {
    RunKeepsOrder(START, ops);
  }

  /* ---- Shutdown ---- */

  function IndexOf(list: seq<Conv>, c: Conv): (i: nat)
    requires c in list
    ensures i < |list| && list[i] == c
  {
    if list[0] == c then 0 else 1 + IndexOf(list[1..], c)
  }

  /** `GetNext`: the entry behind an entry of the list. */
  function Behind(list: seq<Conv>, c: Conv): Option<Conv>
    requires c in list
  {
    if IndexOf(list, c) + 1 < |list| then Some(list[IndexOf(list, c) + 1]) else None
  }

  function HeadPosition(list: seq<Conv>): Option<Conv> {
    if list == [] then None else Some(list[0])
  }

  lemma {:induction false} KeptShorter(list: seq<Conv>, handle: map<Conv, Handle>, gone: set<Handle>, c: Conv)
    requires c in list && (if c in handle then handle[c] else 0) in gone
    ensures |Kept(list, handle, gone)| < |list|
  {
    if list[0] != c {
      KeptShorter(list[1..], handle, gone, c);
    } else {
      KeptLength(list[1..], handle, gone);
    }
  }

  lemma {:induction false} KeptLength(list: seq<Conv>, handle: map<Conv, Handle>, gone: set<Handle>)
    ensures |Kept(list, handle, gone)| <= |list|
  {
    if list != [] {
      KeptLength(list[1..], handle, gone);
    }
  }

  lemma TerminatedShorter(s: Server, c: Conv, delivered: Delivered)
    requires Inv(s) && c in s.list
    ensures Inv(Terminated(s, c, delivered)) && |Terminated(s, c, delivered).list| < |s.list|
  {
    TerminatedKeeps(s, c, delivered);
    var h := HandleOf(s, c);
    DisconnectShrinks(s, h, delivered);
    KeptShorter(s.list, s.handle, Gone(h, delivered), c);
  }

  /** What DDEML delivers while each handle is disconnected. */
  type Deliveries = map<Handle, Delivered>

  function For(deliveries: Deliveries, h: Handle): Delivered {
    if h in deliveries then deliveries[h] else []
  }

  /** One turn of the loop of `Shutdown`. */
  function Visited(s: Server, c: Conv, deliveries: Deliveries): Server {
    Terminated(s, c, For(deliveries, HandleOf(s, c)))
  }

  /** The loop of `Shutdown` from a position: each turn moves on before it terminates the entry it was at.
      The walk comes to nothing if it stands on an entry that is no longer in the list. */
  function Walk(s: Server, pos: Option<Conv>, deliveries: Deliveries): Option<Server>
    requires Inv(s)
    decreases |s.list|
  {
    match pos
    case None => Some(s)
    case Some(c) =>
      if c !in s.list then None
      else
        TerminatedShorter(s, c, For(deliveries, HandleOf(s, c)));
        Walk(Visited(s, c, deliveries), Behind(s.list, c), deliveries)
  }

  /** Some turn of the walk delivers the disconnect of the very next entry. */
  predicate Overtaken(s: Server, deliveries: Deliveries)
    requires Inv(s)
    decreases |s.list|
  {
    if |s.list| <= 1 then false
    else
      var c := s.list[0];
      TerminatedShorter(s, c, For(deliveries, HandleOf(s, c)));
      HandleOf(s, s.list[1]) in For(deliveries, HandleOf(s, c)) || Overtaken(Visited(s, c, deliveries), deliveries)
  }

  /** Terminating the head makes the second entry the head, unless that one was hung up too. */
  lemma HeadMovesOn(s: Server, delivered: Delivered)
    requires Inv(s) && s.list != []
    ensures var t := Terminated(s, s.list[0], delivered);
            if |s.list| == 1 then t.list == []
            else if HandleOf(s, s.list[1]) in delivered then s.list[1] !in t.list
            else t.list != [] && t.list[0] == s.list[1]
  {
    var c := s.list[0];
    assert c in s.list;
    var gone := Gone(HandleOf(s, c), delivered);
    DisconnectShrinks(s, HandleOf(s, c), delivered);
    if |s.list| > 1 {
      var d := s.list[1];
      assert d in s.list && HandleOf(s, d) != HandleOf(s, c);
      KeptMembers(s.list, s.handle, gone, d);
      assert Kept(s.list, s.handle, gone) == Kept(s.list[1..], s.handle, gone);
      assert s.list[1..][0] == d;
    }
  }

  lemma BehindHead(list: seq<Conv>)
    requires list != []
    ensures list[0] in list && Behind(list, list[0]) == if |list| == 1 then None else Some(list[1])
  {
    assert IndexOf(list, list[0]) == 0;
  }

  /** `Shutdown` walks through and leaves the list empty, although every visit takes away the entry being
      visited, exactly if no visit makes DDEML deliver the disconnect of the entry right behind; if one
      does, the saved position is that of an entry already gone. */
  lemma {:induction false} ShutdownEmptiesIff(s: Server, deliveries: Deliveries)
    requires Inv(s)
    ensures var done := Walk(s, HeadPosition(s.list), deliveries);
            && (done.Some? <==> !Overtaken(s, deliveries))
            && (done.Some? ==> done.value.list == [])
    decreases |s.list|
  {
    if s.list != [] {
      var c := s.list[0];
      var delivered := For(deliveries, HandleOf(s, c));
      BehindHead(s.list);
      TerminatedShorter(s, c, delivered);
      HeadMovesOn(s, delivered);
      ShutdownEmptiesIff(Visited(s, c, deliveries), deliveries);
    }
  }

  /** In particular if DDEML never delivers the disconnect of a conversation it holds open. */
  lemma {:induction false} NoDeliveryNoOvertaking(s: Server, deliveries: Deliveries)
    requires Inv(s) && InStep(s)
    requires forall h, k | h in deliveries && k in deliveries[h] :: k !in s.open
    ensures !Overtaken(s, deliveries)
    decreases |s.list|
  {
    if |s.list| > 1 {
      var c := s.list[0];
      var delivered := For(deliveries, HandleOf(s, c));
      assert c in s.list && s.list[1] in s.list;
      TerminatedShorter(s, c, delivered);
      TerminatedKeeps(s, c, delivered);
      DisconnectShrinks(s, HandleOf(s, c), delivered);
      NoDeliveryNoOvertaking(Visited(s, c, deliveries), deliveries);
    }
  }

  /** A run that gets there: two clients have connected, and hanging up on the first hangs up the second. */
  lemma AWalkThatIsOvertaken()
    ensures var s := Run(START, [ConnectConfirm, ConnectConfirm]);
            Inv(s) && Overtaken(s, map[1 := [2]]) && Walk(s, HeadPosition(s.list), map[1 := [2]]) == None
  {
    var ops := [ConnectConfirm, ConnectConfirm];
    assert ops[1..] == [ConnectConfirm] && [ConnectConfirm][1..] == [];
    RunKeeps(START, ops);
    var s := Run(START, ops);
    assert s.list == [0, 1] && HandleOf(s, 0) == 1 && HandleOf(s, 1) == 2;
    ShutdownEmptiesIff(s, map[1 := [2]]);
  }

  /** `Shutdown` as a whole; nothing if the position is lost on the way. */
  function Shut(s: Server, deliveries: Deliveries): Option<Server>
    requires Inv(s)
  {
    if !s.initialized then Some(s)
    else
      match Walk(s, HeadPosition(s.list), deliveries)
      case None => None
      case Some(t) => Some(t.(initialized := false))
  }

  /** After a `Shutdown` that comes to its end nothing is listed and DDEML holds nothing open, and another one
      does nothing. */
  lemma ShutdownIsFinal(s: Server, deliveries: Deliveries, again: Deliveries)
    requires Inv(s) && InStep(s) && s.initialized && Shut(s, deliveries).Some?
    ensures var t := Shut(s, deliveries).value;
            && t.list == [] && t.open == {} && !t.initialized && Inv(t) && Shut(t, again) == Some(t)
  {
    ShutdownEmptiesIff(s, deliveries);
    WalkKeeps(s, HeadPosition(s.list), deliveries);
    NothingOpen(Walk(s, HeadPosition(s.list), deliveries).value);
  }

  lemma NothingOpen(s: Server)
    requires InStep(s) && s.list == []
    ensures s.open == {}
  {
  }

  lemma {:induction false} WalkKeeps(s: Server, pos: Option<Conv>, deliveries: Deliveries)
    requires Inv(s) && InStep(s) && Walk(s, pos, deliveries).Some?
    ensures Inv(Walk(s, pos, deliveries).value) && InStep(Walk(s, pos, deliveries).value)
    decreases |s.list|
  {
    if pos.Some? {
      var c := pos.value;
      TerminatedShorter(s, c, For(deliveries, HandleOf(s, c)));
      TerminatedKeeps(s, c, For(deliveries, HandleOf(s, c)));
      WalkKeeps(Visited(s, c, deliveries), Behind(s.list, c), deliveries);
    }
  }

  /* ---- The objects ---- */

  /** `CDDEServer` with the conversation objects made for it. */
  class CDDEServer {
    var convList: seq<Conv>
    var hConv: map<Conv, Handle>
    var open: set<Handle>
    var next: Handle
    var born: Conv
    var initialized: bool

    ghost function View(): Server
      reads this
    {
      Server(convList, hConv, open, next, born, initialized)
    }

    constructor ()
      ensures View() == START
    {
      convList, hConv, open, next, born, initialized := [], map[], {}, 1, 0, true;
    }

    function HandleHere(c: Conv): Handle
      reads this
    {
      if c in hConv then hConv[c] else 0
    }

    method FindConversation(h: Handle) returns (found: Option<Conv>)
      ensures found == Found(View(), h)
    {
      var pos := 0;
      while pos < |convList|
        invariant 0 <= pos <= |convList|
        invariant FindFrom(View(), h, 0) == FindFrom(View(), h, pos)
      {
        if HandleHere(convList[pos]) == h {
          return Some(convList[pos]);
        }
        pos := pos + 1;
      }
      found := None;
    }

    method RemoveConversation(h: Handle) returns (removed: bool)
      modifies this`convList
      ensures View() == Removed(old(View()), h)
      ensures removed == Found(old(View()), h).Some?
    {
      var pos := 0;
      while pos < |convList|
        invariant 0 <= pos <= |convList| && convList == old(convList)
        invariant FindFrom(View(), h, 0) == FindFrom(View(), h, pos)
      {
        if HandleHere(convList[pos]) == h {
          convList := convList[..pos] + convList[pos + 1..];
          return true;
        }
        pos := pos + 1;
      }
      removed := false;
    }

    /** DDEML ends a conversation, and may hang up others. */
    method DdeDisconnect(h: Handle, delivered: Delivered)
      modifies this`convList, this`open
      ensures View() == Disconnected(old(View()), h, delivered)
    {
      open := open - {h};
      for i := 0 to |delivered|
        invariant AllHungUp(View(), delivered[i..]) == Disconnected(old(View()), h, delivered)
      {
        assert delivered[i..][0] == delivered[i] && delivered[i..][1..] == delivered[i + 1..];
        HangUp(delivered[i]);
      }
    }

    /** `XTYP_DISCONNECT`. */
    method HangUp(h: Handle)
      modifies this`convList, this`open
      ensures View() == HungUp(old(View()), h)
    {
      var _ := RemoveConversation(h);
      open := open - {h};
    }

    /** `CDDEConv::Terminate`. */
    method Terminate(c: Conv, delivered: Delivered) returns (wasActive: bool)
      modifies this`convList, this`open, this`hConv
      ensures View() == Terminated(old(View()), c, delivered)
      ensures wasActive == (HandleOf(old(View()), c) != 0)
    {
      if HandleHere(c) == 0 {
        return false;
      }
      DdeDisconnect(HandleHere(c), delivered);
      var _ := RemoveConversation(HandleHere(c));
      hConv := hConv[c := 0];
      wasActive := true;
    }

    /** `CDDEConv::ConnectTo`; `ok` says whether `DdeConnect` succeeds. */
    method ConnectTo(c: Conv, ok: bool, delivered: Delivered) returns (connected: bool)
      requires c < born
      modifies this
      ensures View() == Step(old(View()), Op.ConnectTo(c, ok, delivered)) && connected == ok
    {
      if HandleHere(c) != 0 {
        var _ := Terminate(c, delivered);
      }
      if !ok {
        return false;
      }
      hConv := hConv[c := next];
      open := open + {next};
      next := next + 1;
      convList := convList + [c];
      connected := true;
    }

    /** `XTYP_CONNECT_CONFIRM`: a new conversation object goes into the list. */
    method AddConversation() returns (c: Conv)
      modifies this
      ensures View() == Step(old(View()), ConnectConfirm) && c == old(born)
    {
      c := born;
      born := born + 1;
      hConv := hConv[c := next];
      open := open + {next};
      next := next + 1;
      convList := convList + [c];
    }

    /** `Shutdown`. It stops where the source would go on from an entry that is gone. */
    method Shutdown(deliveries: Deliveries) returns (dangling: bool)
      requires Inv(View())
      modifies this`convList, this`open, this`hConv, this`initialized
      ensures dangling == Shut(old(View()), deliveries).None?
      ensures !dangling ==> Shut(old(View()), deliveries) == Some(View())
      ensures !dangling && old(initialized) ==> convList == []
    {
      if !initialized {
        return false;
      }
      var pos := HeadPosition(convList);
      ShutdownEmptiesIff(View(), deliveries);
      while pos.Some?
        invariant Inv(View()) && initialized
        invariant Walk(View(), pos, deliveries) == Walk(old(View()), HeadPosition(old(convList)), deliveries)
        decreases |convList|, pos.Some?
      {
        if pos.value !in convList {
          return true;
        }
        var c := pos.value;
        var delivered := For(deliveries, HandleHere(c));
        TerminatedShorter(View(), c, delivered);
        pos := Behind(convList, c);
        var _ := Terminate(c, delivered);
      }
      initialized := false;
      dangling := false;
    }
  }
}
