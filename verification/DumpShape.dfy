/** What an AutoDuck dump looks like, row by row, and what the parser makes of one that looks different. */
module DumpShape {
  import opened Wrappers
  import opened DumpToc

  /** What the next row should be: the first line of a topic, its kind, its properties, an item of a topic that is
      cared for, the properties of an item, or anything that is not the first line of a topic. */
  datatype Expected = First | Kind | Properties(kind: string) | ItemKind | ItemProperties(kind: string) | Anything

  /** What is wrong with the first row that is not as expected, or with the end of the file; one row at a time. */
  function Fault(next: Expected, rows: seq<Row>): Option<Error>
    decreases |rows|, next != First
  {
    if rows == [] then
      match next
      case First | ItemKind | Anything => None
      case Kind | ItemProperties(_) => Some(Incomplete)
      case Properties(_) => Some(OutOfRange)
    else
      var fields, rest := rows[0].fields, rows[1..];
      match next
      case First => if |fields| == 3 then Fault(Kind, rest) else Some(Asserted)
      case Kind => if |fields| == 2 && fields[0] == "" then Fault(Properties(fields[1]), rest) else Some(Asserted)
      case Properties(kind) =>
        if fields[0] != "" then Some(Asserted)
        else if |fields| < 2 then Some(OutOfRange)
        else if fields[1] != "" then Some(Asserted)
        else Fault(if kind in ["module", "object", "topic", "const"] then ItemKind else Anything, rest)
      case ItemKind =>
        if fields[0] != "" then Fault(First, rows)
        else if |fields| < 2 then Some(OutOfRange)
        else if fields[1] == "" then Some(Asserted)
        else Fault(ItemProperties(fields[1]), rest)
      case ItemProperties(kind) =>
        if fields[0] != "" then Some(Asserted)
        else if |fields| < 2 then Some(OutOfRange)
        else if fields[1] != "" then Some(Asserted)
        else if |fields| < (if kind == "pymeth" then 3 else if kind == "prop" then 4 else 2) then Some(OutOfRange)
        else Fault(ItemKind, rest)
      case Anything => if fields[0] != "" then Fault(First, rows) else Fault(Anything, rest)
  }

  /** What is wrong from the end of a topic on. */
  function FaultBehind(next: Next): Option<Error> {
    match next
    case Eof => None
    case Header(row, rest) => Fault(First, [row] + rest)
    case Failed(e) => Some(e)
  }

  lemma Behead(row: Row, rest: seq<Row>)
    ensures ([row] + rest)[0] == row && ([row] + rest)[1..] == rest
  {
  }

  lemma HeadAndRest(rows: seq<Row>)
    requires rows != []
    ensures [rows[0]] + rows[1..] == rows
  {
  }

  lemma {:induction false} SkipFaults(rows: seq<Row>)
    ensures Fault(Anything, rows) == FaultBehind(Skip(rows))
  {
    if rows != [] {
      HeadAndRest(rows);
      SkipFaults(rows[1..]);
    }
  }

  /** An item row and the row behind it. */
  lemma ItemFaults(kind: string, props: Row, top: string, rest: seq<Row>)
    ensures Fault(ItemProperties(kind), [props] + rest)
            == if CheckProperties(props).Some? then CheckProperties(props)
               else if MakeChild(top, kind, props).Err? then Some(MakeChild(top, kind, props).error)
               else Fault(ItemKind, rest)
  {
    Behead(props, rest);
  }

  /** The row of the properties of a topic. */
  lemma PropertiesFault(kind: string, rows: seq<Row>)
    ensures Fault(Properties(kind), rows)
            == if CheckProperties(FirstRow(rows)).Some? then CheckProperties(FirstRow(rows))
               else Fault(if CaredFor(kind) then ItemKind else Anything, rows[1..])
  {
  }

  lemma {:induction false} ItemsFault(top: Topic, rows: seq<Row>)
    ensures Fault(ItemKind, rows) == FaultBehind(Items(top, rows).1)
    decreases |rows|
  {
    if rows != [] {
      HeadAndRest(rows);
      if rows[0].fields[0] == "" && |rows[0].fields| > 1 && |rows| > 1 {
        var kind := rows[0].fields[1];
        assert rows[1..] == [rows[1]] + rows[2..];
        ItemFaults(kind, rows[1], top.name, rows[2..]);
        var made := MakeChild(top.name, kind, rows[1]);
        ItemsFault(top, rows[2..]);
        if made.Ok? && made.value.Some? {
          ItemsFault(top.(contains := top.contains + [made.value.value]), rows[2..]);
        }
      }
    }
  }

  lemma TopicFaults(header: Row, rows: seq<Row>)
    ensures Fault(First, [header] + rows) == FaultBehind(OneTopic(header, rows).1)
  {
    Behead(header, rows);
    if |header.fields| == 3 && rows != [] && |rows[0].fields| == 2 && rows[0].fields[0] == "" {
      var top := Topic(rows[0].fields[1], header.fields[0], header.fields[1] + ".html", []);
      PropertiesFault(top.kind, rows[1..]);
      if |rows| > 1 {
        assert rows[1..][1..] == rows[2..];
        ItemsFault(top, rows[2..]);
        SkipFaults(rows[2..]);
      }
    }
  }

  lemma {:induction false} TopicsFault(cat: Category, header: Row, rows: seq<Row>)
    ensures var r := Topics(cat, header, rows);
            Fault(First, [header] + rows) == if r.Done? then None else Some(r.error)
    decreases |rows|
  {
    TopicFaults(header, rows);
    var (top, next) := OneTopic(header, rows);
    if next.Header? {
      OneTopicShorter(header, rows);
      TopicsFault(Store(cat, top), next.row, next.rest);
    }
  }

  /** The nested loops raise exactly if some row is not as expected, and what they raise is what is wrong with the
      first such row. */
  lemma RaisesAtTheFirstFault(cat: Category, file: string)
    ensures var r := Parse(cat, file);
            Fault(First, Rows(ReadLines(file))) == if r.Done? then None else Some(r.error)
  {
    var rows := Rows(ReadLines(file));
    if rows != [] {
      HeadAndRest(rows);
      TopicsFault(cat, rows[0], rows[1..]);
    }
  }

  /* ---- What is kept when something is wrong ---- */

  lemma {:induction false} ParsesPrefix(cat: Category, dump: seq<Entry>, rows: seq<Row>)
    requires GoodDump(dump) && rows != [] && rows[0].fields[0] != ""
    ensures ParseRows(cat, DumpRows(dump) + rows) == ParseRows(StoreAll(cat, dump), rows)
    decreases |dump|
  {
    if dump == [] {
      assert DumpRows(dump) + rows == rows;
    } else {
      var e, rest := dump[0], dump[1..];
      assert e in dump;
      var behind := DumpRows(rest) + rows;
      DumpAtTopic(rest);
      assert AtTopic(behind) && behind != [];
      DumpToc.Reassociate(EntryRows(e), DumpRows(rest), rows);
      EntryAhead(e, behind);
      ReadsTopic(e, behind);
      ParsesPrefix(Store(cat, TopicOf(e)), rest, rows);
    }
  }

  lemma {:induction false} PrintConcat(a: seq<Row>, b: seq<Row>)
    ensures PrintRows(a + b) == PrintRows(a) + PrintRows(b)
  {
    if a == [] {
      assert a + b == b;
    } else {
      PrintConcat(a[1..], b);
      assert (a + b)[1..] == a[1..] + b;
      DumpToc.Reassociate(Line(a[0]), PrintRows(a[1..]), PrintRows(b));
    }
  }

  /** Whatever stands behind a well-formed dump, all of its topics are stored; if that raises at once, what is left
      is just they. */
  lemma GoodTopicsAreKept(cat: Category, dump: seq<Entry>, rows: seq<Row>)
    requires GoodDump(dump) && rows != [] && rows[0].fields[0] != ""
    requires forall r | r in rows :: AllClean(r.fields)
    ensures Parse(cat, Print(dump) + PrintRows(rows)) == ParseRows(StoreAll(cat, dump), rows)
    ensures var next := OneTopic(rows[0], rows[1..]).1;
            next.Failed? ==>
              Parse(cat, Print(dump) + PrintRows(rows)) == Raised(StoreAll(cat, dump), next.error)
  {
    DumpRowsClean(dump);
    RowsOfPrinted(DumpRows(dump) + rows);
    PrintConcat(DumpRows(dump), rows);
    ParsesPrefix(cat, dump, rows);
  }

  /* ---- The file, character by character ---- */

  lemma JoinMore(field: string, fields: seq<string>)
    requires fields != []
    ensures Join([field] + fields) == field + "\t" + Join(fields)
  {
    assert ([field] + fields)[1..] == fields;
  }

  /** The rows as they stand in the file. */
  lemma PrintedRows(name: string, context: string, kind: string)
    ensures Line(Row([name, context, "Tags:"])) == name + "\t" + context + "\t" + "Tags:" + "\n"
    ensures Line(Row(["", kind])) == "\t" + kind + "\n"
  {
    JoinMore(context, ["Tags:"]);
    JoinMore(name, [context] + ["Tags:"]);
    assert [name] + ([context] + ["Tags:"]) == [name, context, "Tags:"];
    JoinMore("", [kind]);
    assert [""] + [kind] == ["", kind] && "" + "\t" + kind == "\t" + kind;
  }

  lemma {:induction false} LinesOfUnfinished(text: string)
    requires text != "" && '\n' !in text
    ensures ReadLines(text) == [text]
  {
    if |text| == 1 {
      assert text == [text[0]] && text[1..] == "";
    } else {
      LinesOfUnfinished(text[1..]);
      assert text == [text[0]] + text[1..];
    }
  }

  lemma {:induction false} RowsBehindPrinted(rows: seq<Row>, rest: string)
    requires forall r | r in rows :: AllClean(r.fields)
    ensures Rows(ReadLines(PrintRows(rows) + rest)) == rows + Rows(ReadLines(rest))
  {
    if rows == [] {
      assert PrintRows(rows) + rest == rest;
    } else {
      assert rows[0] in rows;
      RowsBehindPrinted(rows[1..], rest);
      JoinHasNoNewline(rows[0].fields);
      DumpToc.Reassociate(Line(rows[0]), PrintRows(rows[1..]), rest);
      ReadOneLine(Join(rows[0].fields), PrintRows(rows[1..]) + rest);
      SplitInvertsJoin(rows[0].fields);
      assert RowOf(Line(rows[0])) == rows[0];
      var all := [Line(rows[0])] + ReadLines(PrintRows(rows[1..]) + rest);
      assert all[1..] == ReadLines(PrintRows(rows[1..]) + rest);
      DumpToc.Reassociate([rows[0]], rows[1..], Rows(ReadLines(rest)));
      HeadAndRest(rows);
    }
  }

  /** A last line without its newline loses its last character instead. */
  lemma LastLineIsCut(rows: seq<Row>, text: string, last: char)
    requires forall r | r in rows :: AllClean(r.fields)
    requires '\n' !in text && last != '\n'
    ensures Rows(ReadLines(PrintRows(rows) + (text + [last]))) == rows + [Row(Split(text))]
  {
    RowsBehindPrinted(rows, text + [last]);
    LinesOfUnfinished(text + [last]);
    assert Chop(text + [last]) == text;
    assert ReadLines(text + [last])[1..] == [];
  }
}
