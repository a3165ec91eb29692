/** `Cursor.prepare`, `execute`, `executemany` and `callproc`: which text and which values reach ADO, and
    what a named call means from the text to the values bound. */
module AdoCursor {
  import opened SqlText
  import NamedStyle
  import FormatStyle
  import opened Wrappers

  datatype ParamStyle = Qmark | NamedParams | FormatParams | Dynamic

  /** The `parameters` argument: `None`, a list or another sequence, or a mapping with its keys in
      iteration order. */
  datatype Params<+V> =
    | NoParams
    | Sequence(isList: bool, values: seq<V>)
    | Mapping(keys: seq<string>, entries: map<string, V>)

  /** What ADO does with a call: it refuses the command or one of its parameters, it fails to execute, or
      it answers with a row count. */
  datatype Answer = Refuses | Fails | Answers(count: int)

  /** One parameter set and what ADO does with it. */
  datatype Attempt<+V> = Attempt(params: Params<V>, answer: Answer)

  /** A value handed to ADO; iterating a mapping yields its keys. */
  datatype Bound<+V> = Val(v: V) | Key(k: string)

  /** An operation object. Strings do not change, so the same object is the same identity with the same
      text. */
  datatype Operation = Operation(id: nat, text: string)

  datatype Preparation = Unprepared | Setup | Prepared

  /** Nothing was executed because something raised before, or this text was executed with these values. */
  datatype Outcome<+V> = Raised | Sent(text: string, bound: seq<Bound<V>>)

  datatype Cursor = Cursor(
    style: ParamStyle,
    command: Option<Operation>,
    text: Option<string>,     // commandText, absent before the first execution
    names: seq<string>,
    preparation: Preparation)

  function Opened(style: ParamStyle): Cursor {
    Cursor(style, None, None, [], Unprepared)
  }

  predicate Truthy<V>(params: Params<V>) {
    match params
    case NoParams => false
    case Sequence(_, values) => values != []
    case Mapping(keys, _) => keys != []
  }

  /** `parameters != []` once `None` has been replaced by a list. */
  predicate ListsParameters<V>(params: Params<V>) {
    match params
    case NoParams => false
    case Sequence(isList, values) => !(isList && values == [])
    case Mapping(_, _) => true
  }

  datatype Mode = Raw | AsFormat | AsNamed

  /** How `execute` treats the text for the given parameters. */
  function ModeOf<V>(style: ParamStyle, params: Params<V>): Mode {
    if style == Qmark || !Truthy(params) then Raw
    else if style == FormatParams then AsFormat
    else if style == NamedParams || params.Mapping? then AsNamed
    else Raw
  }

  /** The command text and parameter names for an operation; `None` when the rewriting raises. */
  function Rewrite(mode: Mode, text: string, letters: set<char>): Option<FormatStyle.Code> {
    match mode
    case Raw => Some(FormatStyle.Code(text, []))
    case AsNamed => Some(FormatStyle.Code(NamedStyle.QmarkText(text, letters), NamedStyle.QmarkNames(text, letters)))
    case AsFormat =>
      if FormatStyle.AllRewrite(Split(text))
      then Some(FormatStyle.Code(FormatStyle.QmarkText(text), FormatStyle.QmarkNames(text)))
      else None
  }

  function Values<V>(values: seq<V>): (bound: seq<Bound<V>>)
    ensures |bound| == |values|
    ensures forall i | 0 <= i < |values| :: bound[i] == Val(values[i])
  {
    if values == [] then [] else [Val(values[0])] + Values(values[1..])
  }

  function Keys<V>(keys: seq<string>): (bound: seq<Bound<V>>)
    ensures |bound| == |keys|
    ensures forall i | 0 <= i < |keys| :: bound[i] == Key(keys[i])
  {
    if keys == [] then [] else [Key(keys[0])] + Keys(keys[1..])
  }

  /** `_buildADOparameterList`; `None` when it raises. */
  function BindParameters<V>(names: seq<string>, params: Params<V>): Option<seq<Bound<V>>> {
    if !ListsParameters(params) then Some([])
    else if names == [] then
      Some(if params.Mapping? then Keys(params.keys) else Values(params.values))
    else if params.Mapping? then
      match NamedStyle.Bind(names, params.entries)
      case None => None
      case Some(values) => Some(Values(values))
    else None
  }

  /** Whether `execute` forms the command text anew. */
  predicate Reformats(c: Cursor, op: Operation) {
    c.command != Some(op) || c.preparation == Setup || c.text == None
  }

  /** The cursor once the command text is settled, and whether the rewriting went through. */
  function Settle<V>(c: Cursor, op: Operation, params: Params<V>, letters: set<char>): (r: (Cursor, bool))
    ensures r.1 ==> r.0.text.Some? && r.0.command == Some(op)
  {
    if !Reformats(c, op) then (c, true)
    else
      var d := c.(command := Some(op), names := [],
                  preparation := if c.command != Some(op) then Unprepared else c.preparation);
      match Rewrite(ModeOf(c.style, params), op.text, letters)
      case None => (d, false)
      case Some(code) => (d.(text := Some(code.text), names := code.names), true)
  }

  /** What a settled text and its names make of a parameter set. */
  function Emit<V>(code: FormatStyle.Code, a: Attempt<V>): Outcome<V> {
    if a.answer.Refuses? then Raised
    else
      match BindParameters(code.names, a.params)
      case None => Raised
      case Some(bound) => Sent(code.text, bound)
  }

  /** `execute`: the cursor afterwards and what was executed. */
  function Execute<V>(c: Cursor, op: Operation, a: Attempt<V>, letters: set<char>): (Cursor, Outcome<V>) {
    var (d, settled) := Settle(c, op, a.params, letters);
    if !settled then (d, Raised)
    else
      var outcome := Emit(FormatStyle.Code(d.text.value, d.names), a);
      (if outcome.Sent? && ListsParameters(a.params) && d.preparation == Setup then d.(preparation := Prepared) else d,
       outcome)
  }

  function Prepare(c: Cursor, op: Operation): Cursor {
    c.(command := Some(op), preparation := Setup)
  }

  /** `callproc` puts the name of the procedure where the command text is; `ownList` says that ADO could not
      list the parameters and the cursor built the list itself. */
  function CallProc(c: Cursor, name: string, ownList: bool): Cursor {
    c.(text := Some(name), names := [],
       preparation := if ownList && c.preparation == Setup then Prepared else c.preparation)
  }

  /** What a cursor that has executed nothing yet would do. */
  function Fresh<V>(style: ParamStyle, op: Operation, a: Attempt<V>, letters: set<char>): Outcome<V> {
    Execute(Opened(style), op, a, letters).1
  }

  lemma FreshIs<V>(style: ParamStyle, op: Operation, a: Attempt<V>, letters: set<char>)
    ensures Fresh(style, op, a, letters)
            == match Rewrite(ModeOf(style, a.params), op.text, letters)
               case None => Raised
               case Some(code) => Emit(code, a)
  {
  }

  lemma FreshEmits<V>(style: ParamStyle, mode: Mode, op: Operation, a: Attempt<V>, letters: set<char>)
    requires ModeOf(style, a.params) == mode && Rewrite(mode, op.text, letters).Some?
    ensures Fresh(style, op, a, letters) == Emit(Rewrite(mode, op.text, letters).value, a)
  {
    FreshIs(style, op, a, letters);
  }

  /** Without names nothing is missing: whatever ADO does not refuse is sent. */
  lemma NamelessSends<V>(text: string, a: Attempt<V>)
    requires !a.answer.Refuses?
    ensures Emit(FormatStyle.Code(text, []), a).Sent? && Emit(FormatStyle.Code(text, []), a).text == text
  {
  }

  /** The call came to its end. */
  predicate Completes<V>(outcome: Outcome<V>, a: Attempt<V>) {
    outcome.Sent? && a.answer.Answers?
  }

  /** `executemany` once it has prepared the operation: one execution per set, up to the first that raises. */
  function Many<V>(c: Cursor, op: Operation, sets: seq<Attempt<V>>, letters: set<char>): (Cursor, seq<Outcome<V>>)
    decreases |sets|
  {
    if sets == [] then (c, [])
    else
      var (d, outcome) := Execute(c, op, sets[0], letters);
      if !Completes(outcome, sets[0]) then (d, [outcome])
      else var (e, rest) := Many(d, op, sets[1..], letters); (e, [outcome] + rest)
  }

  /** Whether every set of a batch came to its end. */
  predicate AllComplete<V>(c: Cursor, op: Operation, sets: seq<Attempt<V>>, letters: set<char>)
    decreases |sets|
  {
    sets == []
    || (Completes(Execute(c, op, sets[0], letters).1, sets[0])
        && AllComplete(Execute(c, op, sets[0], letters).0, op, sets[1..], letters))
  }

  /** The row count of a batch, as the loop adds it up. */
  function Total(counts: seq<int>): int {
    if counts == [] then 0
    else
      var n := |counts| - 1;
      if counts[n] == -1 || Total(counts[..n]) == -1 then -1 else Total(counts[..n]) + counts[n]
  }

  function Sum(counts: seq<int>): int {
    if counts == [] then 0 else counts[0] + Sum(counts[1..])
  }

  lemma {:induction false} SumAppend(counts: seq<int>, count: int)
    ensures Sum(counts + [count]) == Sum(counts) + count
  {
    if counts == [] {
      assert [] + [count] == [count];
    } else {
      SumAppend(counts[1..], count);
      assert (counts + [count])[1..] == counts[1..] + [count];
    }
  }

  /** The row count of a batch is the sum of its counts, or unknown exactly if one of them is. */
  lemma {:induction false} TotalIsSum(counts: seq<int>)
    requires forall i | 0 <= i < |counts| :: counts[i] >= -1
    ensures Total(counts) == if -1 in counts then -1 else Sum(counts)
    ensures Total(counts) >= -1
    ensures -1 !in counts ==> Sum(counts) >= 0
  {
    if counts != [] {
      var n := |counts| - 1;
      TotalIsSum(counts[..n]);
      SumAppend(counts[..n], counts[n]);
      assert counts == counts[..n] + [counts[n]];
    }
  }

  /* ---- End to end ---- */

  /** The mapping as ADO sees its values. */
  function BoundEntries<V>(entries: map<string, V>): map<string, Bound<V>> {
    map name | name in entries :: Val(entries[name])
  }

  lemma {:induction false} BindValues<V>(names: seq<string>, entries: map<string, V>)
    ensures NamedStyle.Bind(names, entries).Some? <==> NamedStyle.Bind(names, BoundEntries(entries)).Some?
    ensures NamedStyle.Bind(names, entries).Some? ==>
              Values(NamedStyle.Bind(names, entries).value) == NamedStyle.Bind(names, BoundEntries(entries)).value
  {
    if names != [] {
      BindValues(names[1..], entries);
      if NamedStyle.Bind(names, entries).Some? {
        var rest := NamedStyle.Bind(names[1..], entries).value;
        assert ([entries[names[0]]] + rest)[1..] == rest;
      }
    }
  }

  predicate NamesParameters(style: ParamStyle) {
    style == NamedParams || style == Dynamic
  }

  lemma MappingEmits<V>(code: FormatStyle.Code, keys: seq<string>, entries: map<string, V>, answer: Answer)
    requires !answer.Refuses? && NamedStyle.Bind(code.names, entries).Some?
    ensures Emit(code, Attempt(Mapping(keys, entries), answer))
         == Sent(code.text, if code.names == [] then Keys(keys)
                            else Values(NamedStyle.Bind(code.names, entries).value))
  {
  }

  lemma NamedCallSends<V>(style: ParamStyle, op: Operation, keys: seq<string>, entries: map<string, V>,
                          answer: Answer, letters: set<char>)
    requires NamesParameters(style) && !answer.Refuses? && (keys == [] ==> entries == map[])
    requires NamedStyle.Bind(NamedStyle.QmarkNames(op.text, letters), entries).Some?
    ensures var names := NamedStyle.QmarkNames(op.text, letters);
            Fresh(style, op, Attempt(Mapping(keys, entries), answer), letters)
            == if keys == [] then Sent(op.text, [])
               else Sent(NamedStyle.QmarkText(op.text, letters),
                         if names == [] then Keys(keys) else Values(NamedStyle.Bind(names, entries).value))
  {
    var a := Attempt(Mapping(keys, entries), answer);
    if keys == [] {
      FreshEmits(style, Raw, op, a, letters);
      MappingEmits(FormatStyle.Code(op.text, []), keys, entries, answer);
    } else {
      var code := FormatStyle.Code(NamedStyle.QmarkText(op.text, letters), NamedStyle.QmarkNames(op.text, letters));
      FreshEmits(style, AsNamed, op, a, letters);
      MappingEmits(code, keys, entries, answer);
    }
  }

  /** A call with a mapping that has every name, in 'named' or 'dynamic' style, sends a text and values that
      fill in to the original text filled from the mapping, exactly when the text is readable and has a
      parameter: without one the keys of the mapping would be bound. An empty mapping is sent with the text
      as it is, which is right exactly when there is no `?` outside literals. */
  lemma NamedCallKeepsMeaningIff<V>(style: ParamStyle, op: Operation, keys: seq<string>, entries: map<string, V>,
                                    answer: Answer, letters: set<char>)
    requires NamesParameters(style) && !answer.Refuses? && (keys == [] ==> entries == map[])
    requires NamedStyle.Bind(NamedStyle.QmarkNames(op.text, letters), entries).Some?
    ensures var outcome := Fresh(style, op, Attempt(Mapping(keys, entries), answer), letters);
            && outcome.Sent?
            && (NamedStyle.FillMarks(ReadMarks(outcome.text, false), outcome.bound)
                == NamedStyle.FillNamed(ReadNamed(op.text, false, letters), BoundEntries(entries))
                <==> if keys == [] then Text('?', false) !in ReadNamed(op.text, false, letters)
                     else NamedStyle.Readable(op.text, letters) && NamedStyle.QmarkNames(op.text, letters) != [])
  {
    var names := NamedStyle.QmarkNames(op.text, letters);
    BindValues(names, entries);
    NamedCallSends(style, op, keys, entries, answer, letters);
    if keys == [] {
      assert names == [];
      UnfilledMeansIff(op.text, BoundEntries(entries), letters);
    } else if names != [] {
      NamedStyle.NamedEndToEnd(op.text, letters, BoundEntries(entries));
    } else {
      KeysAreNoValues(op.text, keys, BoundEntries(entries), letters);
    }
  }

  /** Without parameters, a text reads the same in both styles unless a `?` stands outside literals. */
  lemma {:induction false} SameWithoutNames(s: string, quoted: bool, letters: set<char>)
    requires Slots(ReadNamed(s, quoted, letters)) == []
    ensures if Text('?', false) in ReadNamed(s, quoted, letters) then Slots(ReadMarks(s, quoted)) != []
            else ReadMarks(s, quoted) == ReadNamed(s, quoted, letters)
    decreases |s|
  {
    if s != "" {
      if !quoted && s[0] == ':' {
        assert NameLength(s[1..], letters) == 0;
        assert s[1..][0..] == s[1..];
        SameWithoutNames(s[1..], quoted, letters);
      } else {
        SameWithoutNames(s[1..], if s[0] == QUOTE then !quoted else quoted, letters);
      }
    }
  }

  lemma {:induction false} MarksTakeValues<V>(pieces: seq<Piece>, values: seq<V>)
    ensures NamedStyle.FillMarks(pieces, values).Some? <==> |Slots(pieces)| == |values|
  {
    if pieces != [] {
      MarksTakeValues(pieces[1..], if pieces[0].Text? || values == [] then values else values[1..]);
    }
  }

  lemma {:induction false} NothingToFill<V>(pieces: seq<Piece>, entries: map<string, V>)
    requires Slots(pieces) == []
    ensures NamedStyle.FillMarks(pieces, []) == NamedStyle.FillNamed(pieces, entries)
  {
    if pieces != [] {
      NothingToFill(pieces[1..], entries);
    }
  }

  lemma UnfilledMeansIff<V>(text: string, entries: map<string, Bound<V>>, letters: set<char>)
    requires NamedStyle.QmarkNames(text, letters) == []
    ensures NamedStyle.FillMarks<Bound<V>>(ReadMarks(text, false), [])
            == NamedStyle.FillNamed(ReadNamed(text, false, letters), entries)
       <==> Text('?', false) !in ReadNamed(text, false, letters)
  {
    var pieces := ReadNamed(text, false, letters);
    NamedStyle.NamesAreTheParameters(text, letters);
    SameWithoutNames(text, false, letters);
    NamedHasNoValues(pieces, entries);
    MarksTakeValues<Bound<V>>(ReadMarks(text, false), []);
    NothingToFill(pieces, entries);
  }

  /** A text without parameters is not filled by the keys of a mapping. */
  lemma KeysAreNoValues<V>(text: string, keys: seq<string>, entries: map<string, Bound<V>>, letters: set<char>)
    requires keys != [] && NamedStyle.QmarkNames(text, letters) == []
    ensures NamedStyle.FillMarks(ReadMarks(NamedStyle.QmarkText(text, letters), false), Keys<V>(keys))
         != NamedStyle.FillNamed(ReadNamed(text, false, letters), entries)
  {
    var pieces, marks := ReadNamed(text, false, letters), ReadMarks(NamedStyle.QmarkText(text, letters), false);
    NamedStyle.NamesAreTheParameters(text, letters);
    NamedHasNoValues(pieces, entries);
    if NamedStyle.FillMarks(marks, Keys<V>(keys)).Some? {
      MarksHaveValues(marks, Keys<V>(keys));
    }
  }

  predicate HasValue<V>(filled: seq<NamedStyle.Filled<V>>) {
    exists i | 0 <= i < |filled| :: filled[i].Value?
  }

  lemma {:induction false} NamedHasNoValues<V>(pieces: seq<Piece>, params: map<string, V>)
    requires Slots(pieces) == []
    ensures NamedStyle.FillNamed(pieces, params).Some? && !HasValue(NamedStyle.FillNamed(pieces, params).value)
  {
    if pieces != [] {
      NamedHasNoValues(pieces[1..], params);
    }
  }

  lemma {:induction false} MarksHaveValues<V>(pieces: seq<Piece>, values: seq<V>)
    requires values != [] && NamedStyle.FillMarks(pieces, values).Some?
    ensures HasValue(NamedStyle.FillMarks(pieces, values).value)
  {
    if pieces != [] {
      var filled := NamedStyle.FillMarks(pieces, values).value;
      if pieces[0].Text? {
        MarksHaveValues(pieces[1..], values);
        var rest := NamedStyle.FillMarks(pieces[1..], values).value;
        var i :| 0 <= i < |rest| && rest[i].Value?;
        assert filled[i + 1].Value?;
      } else {
        assert filled[0].Value?;
      }
    }
  }

  /* ---- The cursor itself ---- */

  class CursorObject<V(==)> {
    var style: ParamStyle
    var command: Option<Operation>
    var commandText: Option<string>
    var parameterNames: seq<string>
    var adoPrepared: Preparation
    var rowcount: int
    ghost var outcomes: seq<Outcome<V>>

    ghost function View(): Cursor
      reads this
    {
      Cursor(style, command, commandText, parameterNames, adoPrepared)
    }

    constructor (style: ParamStyle)
      ensures View() == Opened(style) && rowcount == -1 && outcomes == []
    {
      this.style := style;
      command, commandText, parameterNames, adoPrepared, rowcount := None, None, [], Unprepared, -1;
      outcomes := [];
    }

    /** `paramstyle` is an attribute the program may assign. */
    method SetParamStyle(style: ParamStyle)
      modifies this
      ensures View() == old(View()).(style := style) && outcomes == old(outcomes) && rowcount == old(rowcount)
    {
      this.style := style;
    }

    method PrepareOperation(op: Operation)
      modifies this
      ensures View() == Prepare(old(View()), op) && outcomes == old(outcomes) && rowcount == old(rowcount)
    {
      command := Some(op);
      adoPrepared := Setup;
    }

    /** The part of `callproc` that stays behind in the cursor. */
    method CallProcedure(name: string, ownList: bool)
      modifies this
      ensures View() == CallProc(old(View()), name, ownList) && outcomes == old(outcomes) && rowcount == old(rowcount)
    {
      parameterNames := [];
      commandText := Some(name);
      if ownList && adoPrepared == Setup {
        adoPrepared := Prepared;
      }
    }

    /** `_reformat_operation`: `None` when it raises. */
    method Reformat(op: string, params: Params<V>, letters: set<char>) returns (code: Option<FormatStyle.Code>)
      ensures code == Rewrite(ModeOf(style, params), op, letters)
    {
      var mode := ModeOf(style, params);
      if mode == AsFormat {
        code := FormatStyle.ChangeFormatToQmark(op);
      } else if mode == AsNamed {
        var text, names := NamedStyle.ChangeNamedToQmark(op, letters);
        NamedStyle.NamesAreTheParameters(op, letters);
        code := Some(FormatStyle.Code(text, names));
      } else {
        code := Some(FormatStyle.Code(op, []));
      }
    }

    /** The first half of `execute`: settle the command text. */
    method SettleText(op: Operation, params: Params<V>, letters: set<char>) returns (settled: bool)
      modifies this
      ensures (View(), settled) == Settle(old(View()), op, params, letters)
      ensures outcomes == old(outcomes) && rowcount == old(rowcount)
    {
      if command != Some(op) || adoPrepared == Setup || commandText == None {
        if command != Some(op) {
          adoPrepared := Unprepared;
          command := Some(op);
        }
        parameterNames := [];
        var code := Reformat(op.text, params, letters);
        if code == None {
          return false;
        }
        commandText, parameterNames := Some(code.value.text), code.value.names;
      }
      settled := true;
    }

    /** `execute`. The row count changes only if ADO answers. */
    method ExecuteOperation(op: Operation, a: Attempt<V>, letters: set<char>) returns (completed: bool)
      modifies this
      ensures var (d, outcome) := Execute(old(View()), op, a, letters);
              View() == d && outcomes == old(outcomes) + [outcome] && completed == Completes(outcome, a)
      ensures rowcount == if completed then a.answer.count else old(rowcount)
    {
      ghost var outcome := Execute(View(), op, a, letters).1;
      completed := SettleText(op, a.params, letters);
      outcomes := outcomes + [outcome];
      if !completed || a.answer.Refuses? || BindParameters(parameterNames, a.params) == None {
        return false;
      }
      if ListsParameters(a.params) && adoPrepared == Setup {
        adoPrepared := Prepared;
      }
      if a.answer.Fails? {
        return false;
      }
      rowcount := a.answer.count;
    }

    /** `executemany`: one execution per set, up to the first that raises; then the row count is that of the last
        set that came to its end. */
    method ExecuteMany(op: Operation, sets: seq<Attempt<V>>, letters: set<char>)
      returns (completed: bool, ghost counts: seq<int>)
      modifies this
      ensures var (d, done) := Many(Prepare(old(View()), op), op, sets, letters);
              View() == d && outcomes == old(outcomes) + done
      ensures completed == AllComplete(Prepare(old(View()), op), op, sets, letters)
      ensures |counts| <= |sets| && forall i | 0 <= i < |counts| :: sets[i].answer == Answers(counts[i])
      ensures completed ==> |counts| == |sets| && rowcount == Total(counts)
      ensures !completed ==> rowcount == if counts == [] then old(rowcount) else counts[|counts| - 1]
    {
      var total := 0;
      counts := [];
      PrepareOperation(op);
      ghost var start := View();
      for i := 0 to |sets|
        invariant var (d, done) := Many(start, op, sets, letters);
                  var (e, rest) := Many(View(), op, sets[i..], letters);
                  d == e && old(outcomes) + done == outcomes + rest
        invariant AllComplete(start, op, sets, letters) == AllComplete(View(), op, sets[i..], letters)
        invariant |counts| == i && total == Total(counts)
        invariant rowcount == if counts == [] then old(rowcount) else counts[i - 1]
        invariant forall k | 0 <= k < i :: sets[k].answer == Answers(counts[k])
      {
        ghost var before, past := View(), outcomes;
        assert sets[i..][0] == sets[i] && sets[i..][1..] == sets[i + 1..];
        var done := ExecuteOperation(op, sets[i], letters);
        if !done {
          return false, counts;
        }
        Reassociate(past, outcomes[|past|], Many(View(), op, sets[i + 1..], letters).1);
        counts := counts + [rowcount];
        assert counts[..i] + [rowcount] == counts;
        if rowcount == -1 {
          total := -1;
        }
        if total != -1 {
          total := total + rowcount;
        }
      }
      assert sets[|sets|..] == [];
      rowcount := total;
      completed := true;
    }

    lemma Reassociate(past: seq<Outcome<V>>, outcome: Outcome<V>, rest: seq<Outcome<V>>)
      ensures past + [outcome] + rest == past + ([outcome] + rest)
    {
    }
  }
}
