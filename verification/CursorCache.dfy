/** When the command text a cursor keeps is the one a fresh cursor would send: for one call, for the sets of
    a batch, and over runs of `execute`, `prepare`, `executemany`, `callproc` and changes of style. */
module CursorCache {
  import opened AdoCursor
  import opened SqlAssembly
  import opened SqlText
  import opened StyleSwitch
  import opened Wrappers

  /* ---- One call ---- */

  /** The ways of rewriting that one parameter style can call for. */
  predicate OfStyle(style: ParamStyle, mode: Mode) {
    match mode
    case Raw => true
    case AsFormat => style == FormatParams
    case AsNamed => style == NamedParams || style == Dynamic
  }

  /** A text that every way of rewriting of the style leaves as it is: the quotes are in order, and outside
      literals there is no colon, or no `%(` and no `%s`. */
  predicate Plain(style: ParamStyle, text: string) {
    match style
    case Qmark => true
    case FormatParams => FormatStyle.PlainText(text)
    case _ => NamedStyle.PlainText(text)
  }

  lemma PlainInStyle(style: ParamStyle, mode: Mode, text: string)
    requires OfStyle(style, mode) && mode != Raw
    ensures LeavesAlone(mode, text) <==> Plain(style, text)
  {
  }

  /** A call that reuses a text formed for the same operation in one way, where a fresh cursor would form it
      in another, does what the fresh cursor does exactly if the text is plain. */
  lemma ReuseIsFreshIff<V>(style: ParamStyle, op: Operation, cached: Mode, a: Attempt<V>, letters: set<char>)
    requires OfStyle(style, cached) && Rewrite(cached, op.text, letters).Some?
    ensures Emit(Rewrite(cached, op.text, letters).value, a) == Fresh(style, op, a, letters)
       <==> a.answer.Refuses? || cached == ModeOf(style, a.params) || Plain(style, op.text)
  {
    ReuseServesIff(style, op, cached, a, letters);
    ServesInStyle(style, cached, op.text, a, letters);
  }

  lemma ServesInStyle<V>(style: ParamStyle, cached: Mode, text: string, a: Attempt<V>, letters: set<char>)
    requires OfStyle(style, cached)
    ensures Serves(cached, ModeOf(style, a.params), text, a, letters)
       <==> cached == ModeOf(style, a.params) || Plain(style, text)
  {
    if cached != ModeOf(style, a.params) {
      PlainInStyle(style, if cached == Raw then ModeOf(style, a.params) else cached, text);
    }
  }

  /** With parameters to bind, what is sent tells whether there are names. */
  lemma NamesTell<V>(text: string, code: FormatStyle.Code, a: Attempt<V>)
    requires !a.answer.Refuses? && (code.names != [] ==> Truthy(a.params))
    ensures Emit(FormatStyle.Code(text, []), a) == Emit(code, a) <==> code == FormatStyle.Code(text, [])
  {
    NamelessSends(text, a);
    if code.names != [] && a.params.Mapping? {
      var bound := BindParameters(code.names, a.params);
      assert bound.Some? ==> |bound.value| > 0 && bound.value[0].Val?;
      assert Keys<V>(a.params.keys)[0].Key?;
    }
  }

  /** Names are only asked for when there are parameters. */
  lemma NamesNeedParameters<V>(style: ParamStyle, op: Operation, params: Params<V>, letters: set<char>)
    ensures var code := Rewrite(ModeOf(style, params), op.text, letters);
            code.Some? && code.value.names != [] ==> Truthy(params)
  {
  }

  /** A call that finds a foreign text without names does what a fresh cursor does exactly if rewriting its
      own operation would give that text and no names. */
  lemma ForeignIsFreshIff<V>(style: ParamStyle, op: Operation, text: string, a: Attempt<V>, letters: set<char>)
    ensures Emit(FormatStyle.Code(text, []), a) == Fresh(style, op, a, letters)
       <==> a.answer.Refuses?
            || Rewrite(ModeOf(style, a.params), op.text, letters) == Some(FormatStyle.Code(text, []))
  {
    FreshIs(style, op, a, letters);
    NamesNeedParameters(style, op, a.params, letters);
    var code := Rewrite(ModeOf(style, a.params), op.text, letters);
    if !a.answer.Refuses? {
      if code.Some? {
        NamesTell(text, code.value, a);
      } else {
        NamelessSends(text, a);
      }
    }
  }

  /* ---- Where the text of a cursor comes from ---- */

  /** No text yet; the text of an operation, formed in some way; or a text that no longer belongs to the
      cursor's operation, left behind by a rewriting that raised or put there by `callproc`. */
  datatype Origin = Nothing | Formed(op: Operation, mode: Mode) | Left(text: string)

  /** What a caller can know of a cursor from the calls made on it. */
  datatype Trace = Trace(command: Option<Operation>, setup: bool, origin: Origin)

  const NO_CALLS := Trace(None, false, Nothing)

  function CodeOf(o: Origin, letters: set<char>): Option<FormatStyle.Code> {
    match o
    case Nothing => None
    case Formed(op, mode) => Rewrite(mode, op.text, letters)
    case Left(text) => Some(FormatStyle.Code(text, []))
  }

  /** The next execution of this operation would use the text as it is. */
  predicate Reuses(t: Trace, op: Operation) {
    t.command == Some(op) && !t.setup && t.origin != Nothing
  }

  /** The execution does what it would do on a fresh cursor: the text is formed anew, or ADO refuses the
      command, or a text formed in the way that it was may stand for the one this call asks for, or a text
      left over happens to be the right one. */
  predicate Harmless<V(==)>(t: Trace, style: ParamStyle, op: Operation, a: Attempt<V>, letters: set<char>) {
    Reuses(t, op) && !a.answer.Refuses? ==>
      match t.origin
      case Nothing => true
      case Formed(_, mode) => Serves(mode, ModeOf(style, a.params), op.text, a, letters)
      case Left(text) => Rewrite(ModeOf(style, a.params), op.text, letters) == Some(FormatStyle.Code(text, []))
  }

  function LeftBehind(o: Origin, letters: set<char>): Origin {
    match CodeOf(o, letters)
    case None => Nothing
    case Some(code) => Left(code.text)
  }

  /** The trace after an execution. */
  function Advance<V>(t: Trace, style: ParamStyle, op: Operation, a: Attempt<V>, letters: set<char>): Trace {
    if Reuses(t, op) then t
    else
      var setup := t.setup && t.command == Some(op);
      var mode := ModeOf(style, a.params);
      match Rewrite(mode, op.text, letters)
      case None => Trace(Some(op), setup, LeftBehind(t.origin, letters))
      case Some(code) => Trace(Some(op), setup && !(Emit(code, a).Sent? && ListsParameters(a.params)), Formed(op, mode))
  }

  /** The cursor is as its calls have left it. */
  ghost predicate Follows(c: Cursor, t: Trace, letters: set<char>) {
    && c.command == t.command && (c.preparation == Setup <==> t.setup)
    && (match CodeOf(t.origin, letters)
        case None => t.origin == Nothing && c.text == None
        case Some(code) => c.text == Some(code.text) && c.names == code.names)
    && (t.origin.Formed? && !t.setup ==> t.command == Some(t.origin.op))
  }

  lemma ExecuteFollows<V>(c: Cursor, t: Trace, op: Operation, a: Attempt<V>, letters: set<char>)
    requires Follows(c, t, letters)
    ensures Execute(c, op, a, letters).0.style == c.style
    ensures Follows(Execute(c, op, a, letters).0, Advance(t, c.style, op, a, letters), letters)
  {
  }

  /** One execution on a cursor of any history does what it would do on a fresh one exactly if it is
      harmless. */
  lemma ExecuteIsFreshIff<V>(c: Cursor, t: Trace, op: Operation, a: Attempt<V>, letters: set<char>)
    requires Follows(c, t, letters)
    ensures Execute(c, op, a, letters).1 == Fresh(c.style, op, a, letters) <==> Harmless(t, c.style, op, a, letters)
  {
    FreshIs(c.style, op, a, letters);
    if Reuses(t, op) {
      if t.origin.Formed? {
        ReuseServesIff(c.style, op, t.origin.mode, a, letters);
      } else {
        ForeignIsFreshIff(c.style, op, t.origin.text, a, letters);
      }
    }
  }

  /* ---- A batch ---- */

  /** `executemany` as it would be with a fresh cursor for every set. */
  function FreshMany<V>(style: ParamStyle, op: Operation, sets: seq<Attempt<V>>, letters: set<char>): seq<Outcome<V>>
    decreases |sets|
  {
    if sets == [] then []
    else
      var outcome := Fresh(style, op, sets[0], letters);
      [outcome] + if Completes(outcome, sets[0]) then FreshMany(style, op, sets[1..], letters) else []
  }

  /** The sets such a batch gets to. */
  function Reached<V>(style: ParamStyle, op: Operation, sets: seq<Attempt<V>>, letters: set<char>): seq<Attempt<V>>
    decreases |sets|
  {
    if sets == [] then []
    else
      [sets[0]] + if Completes(Fresh(style, op, sets[0], letters), sets[0]) then Reached(style, op, sets[1..], letters)
                  else []
  }

  /** Every execution of the sets is harmless, up to the first that raises. */
  predicate ManyHarmless<V(==)>(t: Trace, style: ParamStyle, op: Operation, sets: seq<Attempt<V>>, letters: set<char>)
    decreases |sets|
  {
    sets == []
    || (&& Harmless(t, style, op, sets[0], letters)
        && (Completes(Fresh(style, op, sets[0], letters), sets[0]) ==>
              ManyHarmless(Advance(t, style, op, sets[0], letters), style, op, sets[1..], letters)))
  }

  function AdvanceMany<V>(t: Trace, style: ParamStyle, op: Operation, sets: seq<Attempt<V>>, letters: set<char>): Trace
    decreases |sets|
  {
    if sets == [] then t
    else
      var u := Advance(t, style, op, sets[0], letters);
      if Completes(Fresh(style, op, sets[0], letters), sets[0]) then AdvanceMany(u, style, op, sets[1..], letters)
      else u
  }

  lemma HeadsDiffer<T>(x: T, a: seq<T>, y: T, b: seq<T>)
    ensures [x] + a == [y] + b <==> x == y && a == b
  {
    assert ([x] + a)[0] == x && ([y] + b)[0] == y;
    assert ([x] + a)[1..] == a && ([y] + b)[1..] == b;
  }

  lemma {:induction false} ManyIsFreshIff<V>(c: Cursor, t: Trace, op: Operation, sets: seq<Attempt<V>>,
                                             letters: set<char>)
    requires Follows(c, t, letters)
    ensures Many(c, op, sets, letters).1 == FreshMany(c.style, op, sets, letters)
       <==> ManyHarmless(t, c.style, op, sets, letters)
    ensures ManyHarmless(t, c.style, op, sets, letters) ==>
              var d := Many(c, op, sets, letters).0;
              d.style == c.style && Follows(d, AdvanceMany(t, c.style, op, sets, letters), letters)
    decreases |sets|
  {
    if sets != [] {
      var (d, outcome) := Execute(c, op, sets[0], letters);
      var u := Advance(t, c.style, op, sets[0], letters);
      ExecuteIsFreshIff(c, t, op, sets[0], letters);
      ExecuteFollows(c, t, op, sets[0], letters);
      ManyIsFreshIff(d, u, op, sets[1..], letters);
      HeadsDiffer(outcome, if Completes(outcome, sets[0]) then Many(d, op, sets[1..], letters).1 else [],
                  Fresh(c.style, op, sets[0], letters),
                  if Completes(Fresh(c.style, op, sets[0], letters), sets[0])
                  then FreshMany(c.style, op, sets[1..], letters) else []);
    }
  }

  /** The first parameter set that makes `_buildADOparameterList` mark the statement as prepared. */
  function Primer<V>(sets: seq<Attempt<V>>): (p: nat)
    ensures p <= |sets|
    ensures forall i | 0 <= i < p :: !ListsParameters(sets[i].params)
    ensures p < |sets| ==> ListsParameters(sets[p].params)
  {
    if sets == [] || ListsParameters(sets[0].params) then 0 else 1 + Primer(sets[1..])
  }

  /** Every set from some place on asks for the same way of rewriting, or is refused. */
  predicate OneWay<V>(style: ParamStyle, mode: Mode, sets: seq<Attempt<V>>) {
    forall i | 0 <= i < |sets| :: sets[i].answer.Refuses? || ModeOf(style, sets[i].params) == mode
  }

  /** From the primer on, every set asks for the way of rewriting that the primer asks for. */
  predicate Uniform<V>(style: ParamStyle, sets: seq<Attempt<V>>) {
    var p := Primer(sets);
    p < |sets| ==> OneWay(style, ModeOf(style, sets[p].params), sets[p..])
  }

  lemma OneWayStep<V>(style: ParamStyle, mode: Mode, sets: seq<Attempt<V>>)
    requires sets != []
    ensures OneWay(style, mode, sets)
       <==> (sets[0].answer.Refuses? || ModeOf(style, sets[0].params) == mode) && OneWay(style, mode, sets[1..])
  {
    if OneWay(style, mode, sets[1..]) {
      forall i | 0 < i < |sets| ensures sets[i].answer.Refuses? || ModeOf(style, sets[i].params) == mode {
        assert sets[1..][i - 1] == sets[i];
      }
    } else {
      var i :| 0 <= i < |sets[1..]| && !(sets[1..][i].answer.Refuses? || ModeOf(style, sets[1..][i].params) == mode);
      assert sets[i + 1] == sets[1..][i];
    }
  }

  /** Once the text is formed for the operation it is reused to the end of the batch. */
  lemma {:induction false} ReusedHarmlessIff<V>(mode: Mode, style: ParamStyle, op: Operation, sets: seq<Attempt<V>>,
                                                letters: set<char>)
    requires OfStyle(style, mode)
    ensures ManyHarmless(Trace(Some(op), false, Formed(op, mode)), style, op, sets, letters)
       <==> Plain(style, op.text) || OneWay(style, mode, Reached(style, op, sets, letters))
    decreases |sets|
  {
    if sets != [] {
      var reached := Reached(style, op, sets, letters);
      ReusedHarmlessIff(mode, style, op, sets[1..], letters);
      ServesInStyle(style, mode, op.text, sets[0], letters);
      assert reached[1..] == if Completes(Fresh(style, op, sets[0], letters), sets[0])
                             then Reached(style, op, sets[1..], letters) else [];
      OneWayStep(style, mode, reached);
    }
  }

  lemma UniformStep<V>(style: ParamStyle, sets: seq<Attempt<V>>)
    requires sets != []
    ensures Uniform(style, sets)
       <==> if ListsParameters(sets[0].params) then OneWay(style, ModeOf(style, sets[0].params), sets[1..])
            else Uniform(style, sets[1..])
  {
    if ListsParameters(sets[0].params) {
      assert sets[0..] == sets;
      OneWayStep(style, ModeOf(style, sets[0].params), sets);
    } else {
      var p := Primer(sets[1..]);
      assert sets[1..][p..] == sets[p + 1..];
    }
  }

  /** After `prepare` the text is formed anew until the primer, and reused from there on. */
  lemma {:induction false} BatchHarmlessIff<V>(o: Origin, style: ParamStyle, op: Operation, sets: seq<Attempt<V>>,
                                               letters: set<char>)
    ensures ManyHarmless(Trace(Some(op), true, o), style, op, sets, letters)
       <==> Plain(style, op.text) || Uniform(style, Reached(style, op, sets, letters))
    decreases |sets|
  {
    if sets != [] {
      var reached := Reached(style, op, sets, letters);
      var mode := ModeOf(style, sets[0].params);
      assert reached[1..] == if Completes(Fresh(style, op, sets[0], letters), sets[0])
                             then Reached(style, op, sets[1..], letters) else [];
      UniformStep(style, reached);
      FreshIs(style, op, sets[0], letters);
      ReusedHarmlessIff(mode, style, op, sets[1..], letters);
      BatchHarmlessIff(Formed(op, mode), style, op, sets[1..], letters);
    }
  }

  /** `executemany` does for each set what a fresh cursor would do, on a cursor of any history, exactly if
      the text is plain or the sets it gets to ask for one way of rewriting from the primer on. */
  lemma BatchIsFreshIff<V>(c: Cursor, t: Trace, op: Operation, sets: seq<Attempt<V>>, letters: set<char>)
    requires Follows(c, t, letters)
    ensures Many(Prepare(c, op), op, sets, letters).1 == FreshMany(c.style, op, sets, letters)
       <==> Plain(c.style, op.text) || Uniform(c.style, Reached(c.style, op, sets, letters))
  {
    ManyIsFreshIff(Prepare(c, op), Trace(Some(op), true, t.origin), op, sets, letters);
    BatchHarmlessIff(t.origin, c.style, op, sets, letters);
  }

  /* ---- Runs ---- */

  /** A call of the program on a cursor. */
  datatype Request<+V> =
    | ExecuteCall(op: Operation, a: Attempt<V>)
    | PrepareCall(op: Operation)
    | ManyCall(op: Operation, sets: seq<Attempt<V>>)
    | ProcCall(name: string, ownList: bool)
    | StyleCall(style: ParamStyle)    // `paramstyle` is assigned

  /** The cursor after a call, and what was executed. */
  function Serve<V>(c: Cursor, r: Request<V>, letters: set<char>): (Cursor, seq<Outcome<V>>) {
    match r
    case ExecuteCall(op, a) => var (d, outcome) := Execute(c, op, a, letters); (d, [outcome])
    case PrepareCall(op) => (Prepare(c, op), [])
    case ManyCall(op, sets) => Many(Prepare(c, op), op, sets, letters)
    case ProcCall(name, ownList) => (CallProc(c, name, ownList), [])
    case StyleCall(style) => (c.(style := style), [])
  }

  function StyleAfter<V>(style: ParamStyle, r: Request<V>): ParamStyle {
    if r.StyleCall? then r.style else style
  }

  /** What is executed call by call over a run. */
  function Run<V>(c: Cursor, requests: seq<Request<V>>, letters: set<char>): seq<seq<Outcome<V>>>
    decreases |requests|
  {
    if requests == [] then []
    else var (d, done) := Serve(c, requests[0], letters); [done] + Run(d, requests[1..], letters)
  }

  /** The same run with a fresh cursor for every execution. */
  function FreshRun<V>(style: ParamStyle, requests: seq<Request<V>>, letters: set<char>): seq<seq<Outcome<V>>>
    decreases |requests|
  {
    if requests == [] then []
    else
      var done :=
        match requests[0]
        case ExecuteCall(op, a) => [Fresh(style, op, a, letters)]
        case ManyCall(op, sets) => FreshMany(style, op, sets, letters)
        case _ => [];
      [done] + FreshRun(StyleAfter(style, requests[0]), requests[1..], letters)
  }

  /** What a caller has to ask of one call. */
  predicate RequestHarmless<V(==)>(t: Trace, style: ParamStyle, r: Request<V>, letters: set<char>) {
    match r
    case ExecuteCall(op, a) => Harmless(t, style, op, a, letters)
    case ManyCall(op, sets) => Plain(style, op.text) || Uniform(style, Reached(style, op, sets, letters))
    case _ => true
  }

  function Track<V>(t: Trace, style: ParamStyle, r: Request<V>, letters: set<char>): Trace {
    match r
    case ExecuteCall(op, a) => Advance(t, style, op, a, letters)
    case PrepareCall(op) => Trace(Some(op), true, t.origin)
    case ManyCall(op, sets) => AdvanceMany(Trace(Some(op), true, t.origin), style, op, sets, letters)
    case ProcCall(name, ownList) => Trace(t.command, t.setup && !ownList, Left(name))
    case StyleCall(_) => t
  }

  predicate RunHarmless<V(==)>(t: Trace, style: ParamStyle, requests: seq<Request<V>>, letters: set<char>)
    decreases |requests|
  {
    requests == []
    || (RequestHarmless(t, style, requests[0], letters)
        && RunHarmless(Track(t, style, requests[0], letters), StyleAfter(style, requests[0]), requests[1..], letters))
  }

  lemma ServeIsFreshIff<V>(c: Cursor, t: Trace, r: Request<V>, letters: set<char>)
    requires Follows(c, t, letters)
    ensures Serve(c, r, letters).1 == FreshRun(c.style, [r], letters)[0] <==> RequestHarmless(t, c.style, r, letters)
    ensures RequestHarmless(t, c.style, r, letters) ==>
              var d := Serve(c, r, letters).0;
              d.style == StyleAfter(c.style, r) && Follows(d, Track(t, c.style, r, letters), letters)
  {
    match r
    case ExecuteCall(op, a) =>
      ExecuteIsFreshIff(c, t, op, a, letters);
      ExecuteFollows(c, t, op, a, letters);
    case ManyCall(op, sets) =>
      BatchIsFreshIff(c, t, op, sets, letters);
      ManyIsFreshIff(Prepare(c, op), Trace(Some(op), true, t.origin), op, sets, letters);
    case _ =>
  }

  lemma {:induction false} FollowedRunIsFreshIff<V>(c: Cursor, t: Trace, requests: seq<Request<V>>, letters: set<char>)
    requires Follows(c, t, letters)
    ensures Run(c, requests, letters) == FreshRun(c.style, requests, letters)
       <==> RunHarmless(t, c.style, requests, letters)
    decreases |requests|
  {
    if requests != [] {
      var r, rest := requests[0], requests[1..];
      var (d, done) := Serve(c, r, letters);
      ServeIsFreshIff(c, t, r, letters);
      HeadsDiffer(done, Run(d, rest, letters), FreshRun(c.style, [r], letters)[0],
                  FreshRun(StyleAfter(c.style, r), rest, letters));
      if RequestHarmless(t, c.style, r, letters) {
        FollowedRunIsFreshIff(d, Track(t, c.style, r, letters), rest, letters);
      }
    }
  }

  /** Over every run of `execute`, `prepare`, `executemany`, `callproc` and assignments of `paramstyle`,
      whatever raises on the way, the cursor does call by call what fresh cursors of the style of the moment
      would do exactly if every call is harmless. */
  lemma CacheIsInvisibleIff<V>(style: ParamStyle, requests: seq<Request<V>>, letters: set<char>)
    ensures Run(Opened(style), requests, letters) == FreshRun(style, requests, letters)
       <==> RunHarmless(NO_CALLS, style, requests, letters)
  {
    FollowedRunIsFreshIff(Opened(style), NO_CALLS, requests, letters);
  }

  /* ---- What harms ---- */

  /** For any two ways of rewriting, of one style or of two, there is a text that is not sent as a fresh cursor
      would send it when it is reused across them, whatever the parameters. */
  lemma ModesDiffer<V>(style: ParamStyle, cached: Mode, a: Attempt<V>, letters: set<char>) returns (op: Operation)
    requires cached != ModeOf(style, a.params) && !a.answer.Refuses?
    ensures Rewrite(cached, op.text, letters).Some?
    ensures Emit(Rewrite(cached, op.text, letters).value, a) != Fresh(style, op, a, letters)
  {
    if cached == AsNamed || ModeOf(style, a.params) == AsNamed {
      op := Operation(0, ":a");
      ColonIsNotPlain();
      ColonTells(":a", cached, ModeOf(style, a.params), a, letters);
    } else {
      op := Operation(0, "%s");
      FormatMarkIsNotPlain();
    }
    ReuseServesIff(style, op, cached, a, letters);
  }

  lemma ColonTells<V>(text: string, cached: Mode, now: Mode, a: Attempt<V>, letters: set<char>)
    requires !NamedStyle.PlainText(text) && !PlainCode(text) && NoEmptyLiteral(Split(text))
    requires FormatStyle.AllRewrite(Split(text)) && FormatStyle.QmarkNames(text) == []
    requires cached != now && (cached == AsNamed || now == AsNamed) && !a.answer.Refuses?
    ensures Rewrite(cached, text, letters).Some? && !Serves(cached, now, text, a, letters)
  {
    if cached != Raw && now != Raw {
      var x, y := RewritesAre(text, letters);
      AlikeIff(text, a, letters);
      NamelessBinds(a);
    }
  }

  lemma NamelessBinds<V>(a: Attempt<V>)
    requires !a.answer.Refuses?
    ensures !CannotBind([], a)
  {
  }

  lemma ColonIsNotPlain()
    ensures !NamedStyle.PlainText(":a") && !PlainCode(":a")
    ensures NoEmptyLiteral(Split(":a")) && FormatStyle.AllRewrite(Split(":a")) && FormatStyle.QmarkNames(":a") == []
  {
    SplitUnquoted(":a");
    assert Split(":a")[0] == ":a" && ":a"[0] == ':' && ":a"[1..] == "a";
    assert !FormatStyle.Has(":a", FormatStyle.OPEN);
    assert [":a"][1..] == [];
  }

  lemma FormatMarkIsNotPlain()
    ensures !FormatStyle.PlainText("%s") && FormatStyle.AllRewrite(Split("%s"))
  {
    SplitUnquoted("%s");
    assert "%s"[1..] == "s" && "s"[1..] == "" && "%s"[..2] == FormatStyle.PLAIN;
    assert FormatStyle.Has("%s", FormatStyle.PLAIN) && !FormatStyle.Has("%s", FormatStyle.OPEN);
    assert Split("%s")[0] == "%s";
  }

  /** When the rewriting raises, the operation is remembered all the same: passing it again sends the text of
      the operation before it, which is right exactly if the call has no parameters and that text happens to
      be its own. */
  lemma FailedRewriteLeavesStaleText<V>(c: Cursor, t: Trace, op: Operation, a: Attempt<V>, again: Attempt<V>,
                                        letters: set<char>)
    requires Follows(c, t, letters) && c.command != Some(op) && c.text.Some?
    requires Rewrite(ModeOf(c.style, a.params), op.text, letters) == None && !again.answer.Refuses?
    ensures var (d, outcome) := Execute(c, op, a, letters);
            && outcome == Raised
            && Execute(d, op, again, letters).1.Sent? && Execute(d, op, again, letters).1.text == c.text.value
            && (Execute(d, op, again, letters).1 == Fresh(c.style, op, again, letters)
                <==> !Truthy(again.params) && c.text.value == op.text)
  {
    var u := Advance(t, c.style, op, a, letters);
    ExecuteFollows(c, t, op, a, letters);
    ExecuteIsFreshIff(Execute(c, op, a, letters).0, u, op, again, letters);
    NamelessSends(c.text.value, again);
  }

  /** `callproc` does not forget the operation either: passing it again sends the name of the procedure. */
  lemma ProcedureNameIsSent<V>(c: Cursor, op: Operation, name: string, ownList: bool, a: Attempt<V>, letters: set<char>)
    requires c.command == Some(op) && (c.preparation != Setup || ownList) && !a.answer.Refuses?
    ensures var outcome := Execute(CallProc(c, name, ownList), op, a, letters).1; outcome.Sent? && outcome.text == name
  {
    NamelessSends(name, a);
  }

  lemma ReachesBoth<V>(style: ParamStyle, op: Operation, a: Attempt<V>, b: Attempt<V>, letters: set<char>)
    requires Completes(Fresh(style, op, a, letters), a)
    ensures Reached(style, op, [a, b], letters) == [a, b]
  {
    assert [a, b][1..] == [b] && [b][1..] == [];
    assert Reached(style, op, [b], letters) == [b];
  }

  lemma NotUniform<V>(style: ParamStyle, a: Attempt<V>, b: Attempt<V>)
    requires ListsParameters(a.params) && !b.answer.Refuses? && ModeOf(style, b.params) != ModeOf(style, a.params)
    ensures !Uniform(style, [a, b])
  {
    UniformStep(style, [a, b]);
    assert [a, b][1..] == [b] && [b][0] == b;
  }

  lemma BatchOfTwoHarms<V>(style: ParamStyle, op: Operation, a: Attempt<V>, b: Attempt<V>, letters: set<char>)
    requires !Plain(style, op.text) && Completes(Fresh(style, op, a, letters), a) && ListsParameters(a.params)
    requires !b.answer.Refuses? && ModeOf(style, b.params) != ModeOf(style, a.params)
    ensures Many(Prepare(Opened(style), op), op, [a, b], letters).1 != FreshMany(style, op, [a, b], letters)
  {
    BatchIsFreshIff(Opened(style), NO_CALLS, op, [a, b], letters);
    ReachesBoth(style, op, a, b, letters);
    NotUniform(style, a, b);
  }

  lemma NamedCallCompletes<V>(op: Operation, keys: seq<string>, entries: map<string, V>, letters: set<char>)
    requires keys != [] && NamedStyle.Bind(NamedStyle.QmarkNames(op.text, letters), entries).Some?
    ensures var a := Attempt(Mapping(keys, entries), Answers(1)); Completes(Fresh(NamedParams, op, a, letters), a)
  {
    NamedCallSends(NamedParams, op, keys, entries, Answers(1), letters);
  }

  /** A batch in 'named' style whose first set is a mapping with every name and whose second set has no
      parameters does something else than fresh cursors would, for every text that is not plain. */
  lemma TwoWaysHarm<V>(op: Operation, keys: seq<string>, entries: map<string, V>, letters: set<char>)
    requires keys != [] && !NamedStyle.PlainText(op.text)
    requires NamedStyle.Bind(NamedStyle.QmarkNames(op.text, letters), entries).Some?
    ensures var sets := [Attempt(Mapping(keys, entries), Answers(1)), Attempt(NoParams, Answers(1))];
            Many(Prepare(Opened(NamedParams), op), op, sets, letters).1 != FreshMany(NamedParams, op, sets, letters)
  {
    var first: Attempt<V>, second: Attempt<V> :=
      Attempt(Mapping(keys, entries), Answers(1)), Attempt(NoParams, Answers(1));
    NamedCallCompletes(op, keys, entries, letters);
    BatchOfTwoHarms(NamedParams, op, first, second, letters);
  }

  lemma NothingSent<V>(style: ParamStyle, op: Operation, isList: bool, letters: set<char>)
    ensures var a := Attempt<V>.Attempt(Sequence(isList, []), Answers(1));
            ModeOf(style, a.params) == Raw && Completes(Fresh(style, op, a, letters), a)
  {
    FreshEmits<V>(style, Raw, op, Attempt(Sequence(isList, []), Answers(1)), letters);
  }

  /** In a batch an empty list is no parameters, but an empty tuple is: after `()` the text is not formed anew, so
      a mapping behind it goes wrong for every text that is not plain, and behind `[]` for none. */
  lemma EmptyTupleHarms<V>(op: Operation, isList: bool, keys: seq<string>, entries: map<string, V>, letters: set<char>)
    requires keys != [] && !NamedStyle.PlainText(op.text)
    ensures var sets := [Attempt(Sequence(isList, []), Answers(1)), Attempt(Mapping(keys, entries), Answers(1))];
            isList <==> Many(Prepare(Opened(NamedParams), op), op, sets, letters).1
                        == FreshMany(NamedParams, op, sets, letters)
  {
    var first: Attempt<V>, second: Attempt<V> :=
      Attempt(Sequence(isList, []), Answers(1)), Attempt(Mapping(keys, entries), Answers(1));
    NothingSent<V>(NamedParams, op, isList, letters);
    if isList {
      BatchIsFreshIff(Opened(NamedParams), NO_CALLS, op, [first, second], letters);
      ReachesBoth(NamedParams, op, first, second, letters);
      LastIsUniform(NamedParams, first, second);
    } else {
      BatchOfTwoHarms(NamedParams, op, first, second, letters);
    }
  }

  lemma LastIsUniform<V>(style: ParamStyle, a: Attempt<V>, b: Attempt<V>)
    requires !ListsParameters(a.params)
    ensures Uniform(style, [a, b])
  {
    UniformStep(style, [a, b]);
    UniformStep(style, [b]);
    assert [a, b][1..] == [b] && [b][1..] == [];
  }

  /** Such a batch exists: the text `:a` with the mapping a: 1, then without parameters. */
  lemma ABatchThatHarms(letters: set<char>) returns (op: Operation, sets: seq<Attempt<int>>)
    ensures Many(Prepare(Opened(NamedParams), op), op, sets, letters).1 != FreshMany(NamedParams, op, sets, letters)
  {
    op := Operation(0, ":a");
    var entries: map<string, int> := map["a" := 1];
    sets := [Attempt(Mapping(["a"], entries), Answers(1)), Attempt(NoParams, Answers(1))];
    ColonIsNotPlain();
    NameOfColonA(letters);
    assert NamedStyle.Bind<int>([], entries) == Some([]);
    TwoWaysHarm(op, ["a"], entries, letters);
  }

  lemma NameOfColonA(letters: set<char>)
    ensures NamedStyle.QmarkNames(":a", letters) == ["a"]
  {
    assert ":a"[1..] == "a" && "a"[1..] == "" && NameLength("a", letters) == 1 && "a"[..1] == "a";
    assert ReadNamed(":a", false, letters) == [Slot("a")];
    assert [Slot("a")][1..] == [];
    NamedStyle.NamesAreTheParameters(":a", letters);
  }
}
