/** The transaction state of `Connection` over an ADO provider without retaining transactions: every
    provider call may fail, and the connection tracks the nesting level it was told. */
module Transactions {
  import opened Wrappers

  /** The provider: its nesting level, the writes of the open transaction and the committed ones. */
  datatype Provider = Provider(level: nat, pending: seq<nat>, durable: seq<nat>)

  function Put(p: Provider, w: nat): Provider {
    if p.level == 0 then p.(durable := p.durable + [w]) else p.(pending := p.pending + [w])
  }

  /** `BeginTrans`; the level it returns is the new nesting level. */
  function AfterBegin(p: Provider): Provider {
    p.(level := p.level + 1)
  }

  function AfterCommit(p: Provider): Provider
    requires p.level > 0
  {
    if p.level == 1 then Provider(0, [], p.durable + p.pending) else p.(level := p.level - 1)
  }

  function AfterRollback(p: Provider): Provider
    requires p.level > 0
  {
    Provider(p.level - 1, [], p.durable)
  }

  /** Closing a connection drops what was not committed. */
  function Drop(p: Provider): Provider {
    Provider(0, [], p.durable)
  }

  datatype Conn = Conn(
    connected: bool,             // connector is not None
    supportsTransactions: bool,
    autocommit: bool,
    level: nat,                  // transaction_level
    provider: Provider)

  /** A call of the program, with what the provider calls it makes will answer. */
  datatype Op =
    | Write(w: nat)
    | Commit(commits: bool, begins: bool)
    | Rollback(rollsBack: bool, begins: bool)
    | SetAutocommit(on: bool, rollsBack: bool, begins: bool)
    | Close(rollsBack: bool, closes: bool)

  /** The connection after `connect`; `begins` says whether `BeginTrans` succeeds. */
  function Connect(supports: bool, autocommit: bool, begins: bool): Conn {
    var p := Provider(0, [], []);
    if !supports then Conn(true, false, true, 0, p)
    else if autocommit || !begins then Conn(true, true, autocommit, 0, p)
    else Conn(true, true, false, 1, AfterBegin(p))
  }

  /** The end of `commit` and of `_rollback`: open the next transaction. */
  function Reopen(c: Conn, begins: bool): Conn {
    if c.autocommit || !begins then c
    else c.(provider := AfterBegin(c.provider), level := c.provider.level + 1)
  }

  function DoCommit(c: Conn, commits: bool, begins: bool): Conn {
    if !c.supportsTransactions || !c.connected || !commits || c.provider.level == 0 then c
    else
      var p := AfterCommit(c.provider);
      Reopen(c.(provider := p, level := p.level), begins)
  }

  function DoRollback(c: Conn, rollsBack: bool, begins: bool): Conn {
    if c.level == 0 || !c.connected || !rollsBack || c.provider.level == 0 then c
    else
      var p := AfterRollback(c.provider);
      var d := c.(provider := p, level := p.level);
      if d.level == 0 then Reopen(d, begins) else d
  }

  function DoClose(c: Conn, rollsBack: bool, closes: bool): Conn {
    if !c.connected then c
    else
      var p := if !c.autocommit && c.level > 0 && rollsBack && c.provider.level > 0
               then AfterRollback(c.provider) else c.provider;
      if closes then c.(connected := false, provider := Drop(p)) else c.(provider := p)
  }

  /** The connection after a call, whether or not the call raised. */
  function Step(c: Conn, op: Op): Conn {
    match op
    case Write(w) => if c.connected then c.(provider := Put(c.provider, w)) else c
    case Commit(commits, begins) => DoCommit(c, commits, begins)
    case Rollback(rollsBack, begins) => DoRollback(c, rollsBack, begins)
    case SetAutocommit(on, rollsBack, begins) =>
      if c.supportsTransactions then DoRollback(c.(autocommit := on), rollsBack, begins) else c
    case Close(rollsBack, closes) => DoClose(c, rollsBack, closes)
  }

  /** Whether the call raises: a provider call failed where the failure is not swallowed. */
  predicate Raises(c: Conn, op: Op) {
    match op
    case Write(_) => !c.connected
    case Commit(commits, begins) =>
      c.supportsTransactions
      && (!c.connected || !commits || c.provider.level == 0 || (!c.autocommit && !begins))
    case Rollback(rollsBack, begins) =>
      c.level > 0
      && (!c.connected || !rollsBack || c.provider.level == 0
          || (!c.autocommit && c.provider.level == 1 && !begins))
    case SetAutocommit(_, _, _) => false
    case Close(_, closes) => c.connected && !closes
  }

  function Run(c: Conn, ops: seq<Op>): Conn
    decreases |ops|
  {
    if ops == [] then c else Run(Step(c, ops[0]), ops[1..])
  }

  /* ---- The level ---- */

  /** A `close` whose rollback succeeds and whose `Connection.Close` fails: the connection stays open and
      nobody tells it that its transaction is gone. */
  predicate Strands(c: Conn, op: Op) {
    && op.Close? && op.rollsBack && !op.closes
    && c.connected && !c.autocommit && c.level > 0 && c.provider.level > 0
  }

  predicate EverStrands(c: Conn, ops: seq<Op>)
    decreases |ops|
  {
    ops != [] && (Strands(c, ops[0]) || EverStrands(Step(c, ops[0]), ops[1..]))
  }

  predicate Bounded(c: Conn) {
    c.level <= 1 && c.provider.level <= 1
  }

  /** The connection believes in a transaction the provider has rolled back. */
  predicate Stranded(c: Conn) {
    Bounded(c) && c.level == 1 && c.provider.level == 0
  }

  predicate Agrees(c: Conn) {
    Bounded(c) && c.level == c.provider.level
  }

  lemma StepKeepsAgreement(c: Conn, op: Op)
    requires c.connected && Agrees(c)
    ensures var d := Step(c, op);
            d.connected ==> if Strands(c, op) then Stranded(d) else Agrees(d)
  {
  }

  /** Nothing the program can do repairs a stranded connection. */
  lemma StrandedForever(c: Conn, op: Op)
    requires c.connected && Stranded(c)
    ensures var d := Step(c, op); d.connected ==> Stranded(d)
    ensures !Strands(c, op)
  {
  }

  lemma {:induction false} ClosedStaysClosed(c: Conn, ops: seq<Op>)
    requires !c.connected
    ensures !Run(c, ops).connected
    decreases |ops|
  {
    if ops != [] {
      ClosedStaysClosed(Step(c, ops[0]), ops[1..]);
    }
  }

  lemma {:induction false} StrandedRun(c: Conn, ops: seq<Op>)
    requires c.connected && Stranded(c)
    ensures Run(c, ops).connected ==> Stranded(Run(c, ops))
    decreases |ops|
  {
    if ops != [] {
      StrandedForever(c, ops[0]);
      if Step(c, ops[0]).connected {
        StrandedRun(Step(c, ops[0]), ops[1..]);
      } else {
        ClosedStaysClosed(Step(c, ops[0]), ops[1..]);
      }
    }
  }

  lemma {:induction false} RunAgreesIff(c: Conn, ops: seq<Op>)
    requires c.connected && Agrees(c) && Run(c, ops).connected
    ensures Bounded(Run(c, ops))
    ensures Run(c, ops).level == Run(c, ops).provider.level <==> !EverStrands(c, ops)
    decreases |ops|
  {
    if ops != [] {
      var d := Step(c, ops[0]);
      if !d.connected {
        ClosedStaysClosed(d, ops[1..]);
      }
      StepKeepsAgreement(c, ops[0]);
      if Strands(c, ops[0]) {
        StrandedRun(d, ops[1..]);
      } else {
        RunAgreesIff(d, ops[1..]);
      }
    }
  }

  /** Over every run of an open connection, whatever fails, `transaction_level` never exceeds 1 and
      equals the provider's nesting level exactly if no `close` failed after it had rolled back. */
  lemma LevelIsTheProvidersIff(supports: bool, autocommit: bool, begins: bool, ops: seq<Op>)
    requires Run(Connect(supports, autocommit, begins), ops).connected
    ensures var start := Connect(supports, autocommit, begins);
            var c := Run(start, ops);
            && c.level <= 1 && c.provider.level <= 1
            && (c.level == c.provider.level <==> !EverStrands(start, ops))
  {
    RunAgreesIff(Connect(supports, autocommit, begins), ops);
  }

  /** That happens: a `close` that rolls back and then fails leaves the connection open, with a level of 1
      where the provider's is 0. */
  lemma ALevelThatIsStale()
    ensures var c := Run(Connect(true, false, true), [Close(true, false)]);
            c.connected && c.level == 1 && c.provider.level == 0
  {
    assert [Close(true, false)][1..] == [];
  }

  /* ---- One transaction is always open ---- */

  /** A commit or rollback that succeeds and whose `BeginTrans` fails. */
  predicate Loses(op: Op) {
    (op.Commit? && op.commits && !op.begins) || (op.Rollback? && op.rollsBack && !op.begins)
  }

  predicate KeepsOpen(op: Op) {
    op.Write? || op.Commit? || op.Rollback?
  }

  lemma {:induction false} LostForGood(c: Conn, ops: seq<Op>)
    requires c.connected && c.supportsTransactions && !c.autocommit && c.level == 0 == c.provider.level
    requires forall op | op in ops :: KeepsOpen(op)
    ensures var d := Run(c, ops); d.connected && d.level == 0 == d.provider.level
    decreases |ops|
  {
    if ops != [] {
      assert ops[0] in ops;
      LostForGood(Step(c, ops[0]), ops[1..]);
    }
  }

  lemma {:induction false} OpenUntilLost(c: Conn, ops: seq<Op>)
    requires c.connected && c.supportsTransactions && !c.autocommit && c.level == 1 == c.provider.level
    requires forall op | op in ops :: KeepsOpen(op)
    ensures Run(c, ops).level == Run(c, ops).provider.level
    ensures Run(c, ops).level == 1 <==> forall op | op in ops :: !Loses(op)
    decreases |ops|
  {
    if ops != [] {
      var d := Step(c, ops[0]);
      assert ops[0] in ops && ops == [ops[0]] + ops[1..];
      if Loses(ops[0]) {
        LostForGood(d, ops[1..]);
      } else {
        OpenUntilLost(d, ops[1..]);
      }
    }
  }

  /** With autocommit off at connect and never toggled, exactly one transaction is open between calls,
      exactly as long as no `BeginTrans` has failed; after that there is none until the connection is
      closed. */
  lemma OneTransactionIff(ops: seq<Op>)
    requires forall op | op in ops :: KeepsOpen(op)
    ensures var c := Run(Connect(true, false, true), ops);
            c.level == c.provider.level == 1 <==> forall op | op in ops :: !Loses(op)
  {
    OpenUntilLost(Connect(true, false, true), ops);
  }

  /* ---- What survives ---- */

  datatype End = Neither | Commits | RollsBack

  /** How the transaction that is open before these calls ends. Setting `autocommit`, on or off, rolls back;
      what fails ends nothing. */
  function FirstEnd(ops: seq<Op>): End {
    if ops == [] then Neither
    else
      match ops[0]
      case Commit(commits, _) => if commits then Commits else FirstEnd(ops[1..])
      case Rollback(rollsBack, _) => if rollsBack then RollsBack else FirstEnd(ops[1..])
      case SetAutocommit(_, rollsBack, _) => if rollsBack then RollsBack else FirstEnd(ops[1..])
      case _ => FirstEnd(ops[1..])
  }

  function Writes(ops: seq<Op>): seq<nat> {
    if ops == [] then [] else (if ops[0].Write? then [ops[0].w] else []) + Writes(ops[1..])
  }

  /** The call ends the open transaction. */
  predicate Ends(op: Op) {
    match op
    case Commit(commits, _) => commits
    case Rollback(rollsBack, _) => rollsBack
    case SetAutocommit(_, rollsBack, _) => rollsBack
    case _ => false
  }

  /** And it opens the next one. */
  predicate Begins(op: Op) {
    match op
    case Commit(_, begins) => begins
    case Rollback(_, begins) => begins
    case SetAutocommit(_, _, begins) => begins
    case _ => false
  }

  /** Whether autocommit is on after the call. */
  predicate AutoAfter(auto: bool, op: Op) {
    if op.SetAutocommit? then op.on else auto
  }

  /** The writes that reach the database when a transaction is open before these calls: those of a transaction
      that is committed, and all of them from the moment when no transaction is opened any more. */
  function Kept(auto: bool, ops: seq<Op>): seq<nat>
    decreases |ops|
  {
    if ops == [] then []
    else
      var on := AutoAfter(auto, ops[0]);
      if ops[0].Write? then (if FirstEnd(ops[1..]) == Commits then [ops[0].w] else []) + Kept(auto, ops[1..])
      else if Ends(ops[0]) && (on || !Begins(ops[0])) then Writes(ops[1..])
      else Kept(on, ops[1..])
  }

  /** `close` is not called. */
  predicate StaysOpen(ops: seq<Op>) {
    forall op | op in ops :: !op.Close?
  }

  lemma StaysOpenTail(ops: seq<Op>)
    requires StaysOpen(ops) && ops != []
    ensures !ops[0].Close? && StaysOpen(ops[1..])
  {
  }

  lemma Regroup(a: seq<nat>, b: seq<nat>, c: seq<nat>, d: seq<nat>)
    ensures a + (b + c) + d == a + b + (c + d) && a + [] == a && [] + d == d && a + b + [] == a + b
  {
  }

  lemma OutsideTransaction(c: Conn, op: Op)
    requires c.connected && c.level == 0 == c.provider.level && !op.Close?
    ensures var d := Step(c, op);
            && d.connected && d.level == 0 == d.provider.level && d.provider.pending == c.provider.pending
            && d.provider.durable == c.provider.durable + if op.Write? then [op.w] else []
  {
  }

  lemma Reassociate(a: seq<nat>, b: seq<nat>, c: seq<nat>)
    ensures a + b + c == a + (b + c)
  {
  }

  /** Without an open transaction every write is durable at once, whatever else is called and whatever fails,
      and no call ever opens one: neither `commit` nor turning autocommit off. */
  lemma {:induction false} WithoutTransaction(c: Conn, ops: seq<Op>)
    requires c.connected && c.level == 0 == c.provider.level && StaysOpen(ops)
    ensures var d := Run(c, ops);
            && d.connected && d.level == 0 == d.provider.level && d.provider.pending == c.provider.pending
            && d.provider.durable == c.provider.durable + Writes(ops)
    decreases |ops|
  {
    if ops != [] {
      StaysOpenTail(ops);
      OutsideTransaction(c, ops[0]);
      WithoutTransaction(Step(c, ops[0]), ops[1..]);
      Reassociate(c.provider.durable, if ops[0].Write? then [ops[0].w] else [], Writes(ops[1..]));
    }
  }

  /** One call inside a transaction. */
  lemma InTransaction(c: Conn, op: Op)
    requires c.connected && c.supportsTransactions && c.level == 1 == c.provider.level && !op.Close?
    ensures var d := Step(c, op);
            var on := AutoAfter(c.autocommit, op);
            && d.connected && d.supportsTransactions && d.autocommit == on && d.level == d.provider.level
            && (d.level == 0 <==> Ends(op) && (on || !Begins(op))) && d.level <= 1
            && d.provider.durable == c.provider.durable + (if op.Commit? && Ends(op) then c.provider.pending else [])
            && d.provider.pending == if Ends(op) then [] else c.provider.pending + if op.Write? then [op.w] else []
  {
  }

  /** What the database holds after any run of calls on an open transaction, whatever fails on the way. */
  lemma {:induction false} RunCommits(c: Conn, ops: seq<Op>)
    requires c.connected && c.supportsTransactions && c.level == 1 == c.provider.level && StaysOpen(ops)
    ensures Run(c, ops).connected
    ensures Run(c, ops).provider.durable
         == c.provider.durable + (if FirstEnd(ops) == Commits then c.provider.pending else []) + Kept(c.autocommit, ops)
    decreases |ops|
  {
    if ops != [] {
      var op, rest := ops[0], ops[1..];
      StaysOpenTail(ops);
      InTransaction(c, op);
      if Step(c, op).level == 0 {
        WithoutTransaction(Step(c, op), rest);
      } else {
        RunCommits(Step(c, op), rest);
      }
      Regroup(c.provider.durable, c.provider.pending, if op.Write? then [op.w] else [],
              Kept(AutoAfter(c.autocommit, op), rest));
      Regroup(c.provider.durable, c.provider.pending, [], Kept(AutoAfter(c.autocommit, op), rest));
      Regroup(c.provider.durable, [], [], Kept(AutoAfter(c.autocommit, op), rest));
    }
  }

  /** `close` discards what is pending, and the database keeps exactly the writes whose transaction was
      committed and those made while none was open, in order. */
  lemma CloseKeepsTheCommitted(ops: seq<Op>, rollsBack: bool)
    requires StaysOpen(ops)
    ensures var c := Step(Run(Connect(true, false, true), ops), Close(rollsBack, true));
            !c.connected && c.provider == Provider(0, [], Kept(false, ops))
  {
    RunCommits(Connect(true, false, true), ops);
    assert [] + [] + Kept(false, ops) == Kept(false, ops);
  }

  /* ---- Setting autocommit ---- */

  /** `autocommit` is what it was last set to, whatever fails. */
  function LastSet(auto: bool, ops: seq<Op>): bool
    decreases |ops|
  {
    if ops == [] then auto else LastSet(AutoAfter(auto, ops[0]), ops[1..])
  }

  lemma {:induction false} AutocommitIsLastSet(c: Conn, ops: seq<Op>)
    ensures Run(c, ops).autocommit == if c.supportsTransactions then LastSet(c.autocommit, ops) else c.autocommit
    decreases |ops|
  {
    if ops != [] {
      AutocommitIsLastSet(Step(c, ops[0]), ops[1..]);
    }
  }

  lemma {:induction false} OpenAgrees(c: Conn, ops: seq<Op>)
    requires c.connected && Agrees(c) && StaysOpen(ops)
    ensures Run(c, ops).connected && Agrees(Run(c, ops))
    ensures Run(c, ops).supportsTransactions == c.supportsTransactions
    decreases |ops|
  {
    if ops != [] {
      StaysOpenTail(ops);
      StepKeepsAgreement(c, ops[0]);
      OpenAgrees(Step(c, ops[0]), ops[1..]);
    }
  }

  /** A connection to a provider without transactions, or one made with autocommit on, says that autocommit is on,
      and has every write in the database at once, whatever is called and whatever fails. */
  lemma ConnectedWithAutocommit(supports: bool, auto: bool, begins: bool, ops: seq<Op>, rollsBack: bool, closes: bool)
    requires (!supports || auto) && StaysOpen(ops)
    ensures var c := Connect(supports, auto, begins);
            && c.autocommit && c.level == 0 == c.provider.level
            && Step(Run(c, ops), Close(rollsBack, closes)).provider.durable == Writes(ops)
  {
    WithoutTransaction(Connect(supports, auto, begins), ops);
    assert [] + Writes(ops) == Writes(ops);
  }

  /** Turning autocommit on: what was pending is gone, no transaction is open from then on, and every later
      write is in the database whatever is called and whatever fails, `close` included. */
  lemma AutocommitOn(auto: bool, begun: bool, ops: seq<Op>, begins: bool, more: seq<Op>, rollsBack: bool, closes: bool)
    requires StaysOpen(ops) && StaysOpen(more)
    ensures var before := Run(Connect(true, auto, begun), ops);
            var c := Step(before, SetAutocommit(true, true, begins));
            var d := Run(c, more);
            && c.autocommit && c.level == 0 == c.provider.level && c.provider.durable == before.provider.durable
            && d.level == 0 == d.provider.level
            && Step(d, Close(rollsBack, closes)).provider.durable == before.provider.durable + Writes(more)
  {
    var start := Connect(true, auto, begun);
    OpenAgrees(start, ops);
    WithoutTransaction(Step(Run(start, ops), SetAutocommit(true, true, begins)), more);
  }

  /** Turning autocommit off inside a transaction rolls it back and opens another: what is written from then on
      is in the database only if it is committed. Without a transaction nothing is opened: every later write
      is durable at once although autocommit is off. */
  lemma AutocommitOff(auto: bool, begun: bool, ops: seq<Op>, more: seq<Op>, rollsBack: bool)
    requires StaysOpen(ops) && StaysOpen(more)
    ensures var before := Run(Connect(true, auto, begun), ops);
            var c := Step(before, SetAutocommit(false, true, true));
            var d := Step(Run(c, more), Close(rollsBack, true));
            && !c.autocommit && c.level == before.level == c.provider.level
            && d.provider.durable
               == before.provider.durable + if before.level == 1 then Kept(false, more) else Writes(more)
  {
    var start := Connect(true, auto, begun);
    OpenAgrees(start, ops);
    var before := Run(start, ops);
    var c := Step(before, SetAutocommit(false, true, true));
    if before.level == 1 {
      RunCommits(c, more);
      assert before.provider.durable + [] == before.provider.durable;
    } else {
      WithoutTransaction(c, more);
    }
  }

  /* ---- What raising means ---- */

  /** `commit` raises exactly if the pending writes are not in the database afterwards or no new transaction is
      open where one should be. */
  lemma CommitRaisesIff(c: Conn, commits: bool, begins: bool)
    requires c.connected && c.supportsTransactions && Agrees(c)
    ensures var op := Commit(commits, begins);
            var d := Step(c, op);
            && (!Raises(c, op) ==> d.provider.durable == c.provider.durable + c.provider.pending
                                   && d.provider.pending == [] && d.level == if c.autocommit then 0 else 1)
            && (Raises(c, op) ==> d == c || (d.level == 0 && !c.autocommit && !begins))
            && (c.level == 0 ==> Raises(c, op) && d == c)
  {
  }

  /** `rollback` raises exactly if a transaction stays open that should be gone, or none is open where one
      should be; without a transaction it does nothing. */
  lemma RollbackRaisesIff(c: Conn, rollsBack: bool, begins: bool)
    requires c.connected && c.supportsTransactions && Agrees(c)
    ensures var op := Rollback(rollsBack, begins);
            var d := Step(c, op);
            && d.provider.durable == c.provider.durable
            && (c.level == 0 ==> !Raises(c, op) && d == c)
            && (c.level == 1 && !Raises(c, op) ==> d.provider.pending == [] && d.level == if c.autocommit then 0 else 1)
            && (Raises(c, op) ==> d == c || (d.level == 0 && !c.autocommit && !begins))
  {
  }

  /** `close` raises exactly if the connection is open afterwards. */
  lemma CloseRaisesIff(c: Conn, rollsBack: bool, closes: bool)
    ensures Raises(c, Close(rollsBack, closes)) <==> Step(c, Close(rollsBack, closes)).connected
  {
  }

  /* ---- The objects ---- */

  /** ADO's connection object; `ok` says whether the call succeeds, and a failing call raises. */
  class AdoConnection {
    var state: Provider

    constructor ()
      ensures state == Provider(0, [], [])
    {
      state := Provider(0, [], []);
    }

    method BeginTrans(ok: bool) returns (level: Option<nat>)
      modifies this
      ensures state == if ok then AfterBegin(old(state)) else old(state)
      ensures level == if ok then Some(state.level) else None
    {
      if !ok {
        return None;
      }
      state := AfterBegin(state);
      level := Some(state.level);
    }

    method CommitTrans(ok: bool) returns (level: Option<nat>)
      modifies this
      ensures var done := ok && old(state).level > 0;
              && state == (if done then AfterCommit(old(state)) else old(state))
              && level == if done then Some(state.level) else None
    {
      if !ok || state.level == 0 {
        return None;
      }
      state := AfterCommit(state);
      level := Some(state.level);
    }

    method RollbackTrans(ok: bool) returns (level: Option<nat>)
      modifies this
      ensures var done := ok && old(state).level > 0;
              && state == (if done then AfterRollback(old(state)) else old(state))
              && level == if done then Some(state.level) else None
    {
      if !ok || state.level == 0 {
        return None;
      }
      state := AfterRollback(state);
      level := Some(state.level);
    }

    method Close(ok: bool)
      modifies this
      ensures state == if ok then Drop(old(state)) else old(state)
    {
      if ok {
        state := Drop(state);
      }
    }
  }

  /** The connection object of the DB API. Every method returns whether it raised. */
  class Connection {
    const ado: AdoConnection         // what `connection_maker` made
    var connector: AdoConnection?
    var supportsTransactions: bool
    var transactionLevel: nat
    var autocommit: bool             // _autocommit

    ghost predicate Valid()
      reads this
    {
      connector == null || connector == ado
    }

    ghost function View(): Conn
      reads this, ado
    {
      Conn(connector != null, supportsTransactions, autocommit, transactionLevel, ado.state)
    }

    /** `connect` on a fresh connection whose `Open` succeeds. If `BeginTrans` fails, `connect` raises and
        the object stays as it is. */
    constructor (supports: bool, wantsAutocommit: bool, begins: bool)
      ensures Valid() && fresh(ado)
      ensures View() == Connect(supports, wantsAutocommit, begins)
    {
      supportsTransactions := supports;
      transactionLevel := 0;
      autocommit := if supports then wantsAutocommit else true;
      var maker := new AdoConnection();
      ado := maker;
      connector := maker;
      new;
      if supportsTransactions && !autocommit {
        var level := ado.BeginTrans(begins);
        if level.Some? {
          transactionLevel := level.value;
        }
      }
    }

    method Commit(commits: bool, begins: bool) returns (raised: bool)
      requires Valid()
      modifies this, ado
      ensures Valid()
      ensures View() == Step(old(View()), Op.Commit(commits, begins))
      ensures raised == Raises(old(View()), Op.Commit(commits, begins))
    {
      if !supportsTransactions {
        return false;
      }
      if connector == null {
        return true;
      }
      var level := connector.CommitTrans(commits);
      if level == None {
        return true;
      }
      transactionLevel := level.value;
      if !autocommit {
        level := connector.BeginTrans(begins);
        if level == None {
          return true;
        }
        transactionLevel := level.value;
      }
      raised := false;
    }

    method Rollback(rollsBack: bool, begins: bool) returns (raised: bool)
      requires Valid()
      modifies this, ado
      ensures Valid()
      ensures View() == Step(old(View()), Op.Rollback(rollsBack, begins))
      ensures raised == Raises(old(View()), Op.Rollback(rollsBack, begins))
    {
      if transactionLevel == 0 {
        return false;
      }
      if connector == null {
        return true;
      }
      var level := connector.RollbackTrans(rollsBack);
      if level == None {
        return true;
      }
      transactionLevel := level.value;
      if !autocommit && transactionLevel == 0 {
        level := connector.BeginTrans(begins);
        if level == None {
          return true;
        }
        transactionLevel := level.value;
      }
      raised := false;
    }

    /** Setting the `autocommit` attribute; what the rollback raises is swallowed. */
    method SetAutocommit(on: bool, rollsBack: bool, begins: bool)
      requires Valid()
      modifies this, ado
      ensures Valid()
      ensures View() == Step(old(View()), Op.SetAutocommit(on, rollsBack, begins))
    {
      if supportsTransactions {
        autocommit := on;
        var _ := Rollback(rollsBack, begins);
      }
    }

    /** `close`, with `_closeAdoConnection`. */
    method Close(rollsBack: bool, closes: bool) returns (raised: bool)
      requires Valid()
      modifies this, ado
      ensures Valid()
      ensures View() == Step(old(View()), Op.Close(rollsBack, closes))
      ensures raised == Raises(old(View()), Op.Close(rollsBack, closes))
    {
      if connector != null {
        if !autocommit && transactionLevel > 0 {
          var _ := connector.RollbackTrans(rollsBack);
        }
        connector.Close(closes);
        if !closes {
          return true;
        }
      }
      connector := null;
      raised := false;
    }

    /** A statement that writes, run by a cursor of this connection. */
    method Write(w: nat) returns (raised: bool)
      requires Valid()
      modifies ado
      ensures Valid()
      ensures View() == Step(old(View()), Op.Write(w))
      ensures raised == Raises(old(View()), Op.Write(w))
    {
      if connector == null {
        return true;
      }
      connector.state := Put(connector.state, w);
      raised := false;
    }
  }
}
