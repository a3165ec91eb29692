/** Reading an AutoDuck dump into the topics of a help contents file, and printing one. */
module DumpToc {
  import opened Wrappers

  const TAB := '\t'

  /* ---- Lines and their fields ---- */

  const NEWLINE := '\n'

  predicate Clean(s: string) {
    TAB !in s && NEWLINE !in s
  }

  /** The lines that `readline` gives for a file, each with its newline; the last may have none. */
  function ReadLines(file: string): seq<string> {
    if file == "" then []
    else if file[0] == NEWLINE then [[NEWLINE]] + ReadLines(file[1..])
    else
      var rest := ReadLines(file[1..]);
      if rest == [] then [[file[0]]] else [[file[0]] + rest[0]] + rest[1..]
  }

  /** `s.split("\t")`. */
  function Split(s: string): (fields: seq<string>)
    ensures |fields| > 0
  {
    if s == "" then [""]
    else
      var rest := Split(s[1..]);
      if s[0] == TAB then [""] + rest else [[s[0]] + rest[0]] + rest[1..]
  }

  function Join(fields: seq<string>): string
    requires |fields| > 0
  {
    if |fields| == 1 then fields[0] else fields[0] + [TAB] + Join(fields[1..])
  }

  /** The line without its last character, whatever that is. */
  function Chop(line: string): string {
    if line == "" then "" else line[..|line| - 1]
  }

  /** What the parser makes of a line. */
  type Fields = f: seq<string> | |f| > 0 witness [""]

  datatype Row = Row(fields: Fields)

  function RowOf(line: string): Row {
    Row(Split(Chop(line)))
  }

  function Rows(lines: seq<string>): seq<Row> {
    if lines == [] then [] else [RowOf(lines[0])] + Rows(lines[1..])
  }

  lemma {:induction false} SplitClean(a: string, b: string)
    requires Clean(a)
    ensures Split(a) == [a] && Split(a + [TAB] + b) == [a] + Split(b)
  {
    if a == "" {
      assert "" + [TAB] + b == [TAB] + b;
      assert ([TAB] + b)[1..] == b;
    } else {
      SplitClean(a[1..], b);
      assert (a + [TAB] + b)[1..] == a[1..] + [TAB] + b;
      assert a == [a[0]] + a[1..];
      assert ([a[1..]] + Split(b))[1..] == Split(b);
    }
  }

  lemma {:induction false} SplitInvertsJoin(fields: seq<string>)
    requires |fields| > 0 && forall i | 0 <= i < |fields| :: Clean(fields[i])
    ensures Split(Join(fields)) == fields
  {
    if |fields| == 1 {
      SplitClean(fields[0], "");
    } else {
      SplitInvertsJoin(fields[1..]);
      SplitClean(fields[0], Join(fields[1..]));
    }
  }

  /* ---- What is stored ---- */

  datatype Child = Child(kind: string, name: string, context: string)

  datatype Topic = Topic(kind: string, name: string, context: string, contains: seq<Child>)

  /** The four dictionaries of a category. */
  datatype Category = Category(
    modules: map<string, Topic>,
    objects: map<string, Topic>,
    overviewTopics: map<string, Topic>,
    constants: map<string, Topic>)

  predicate CaredFor(kind: string) {
    kind == "module" || kind == "object" || kind == "topic" || kind == "const"
  }

  function Store(c: Category, t: Topic): Category {
    if t.kind == "module" then c.(modules := c.modules[t.name := t])
    else if t.kind == "object" then c.(objects := c.objects[t.name := t])
    else if t.kind == "topic" then c.(overviewTopics := c.overviewTopics[t.name := t])
    else if t.kind == "const" then c.(constants := c.constants[t.name := t])
    else c
  }

  function Replace(s: string, c: char, with: string): string {
    if s == "" then "" else (if s[0] == c then with else [s[0]]) + Replace(s[1..], c, with)
  }

  /** `_urlescape`. */
  function UrlEscape(name: string): string {
    Replace(Replace(Replace(name, ' ', "_"), '(', ".28"), ')', ".29")
  }

  /* ---- The parser ---- */

  /** A failed assertion, a field that is not there, or the end of the file inside a topic. */
  datatype Error = Asserted | OutOfRange | Incomplete

  datatype Outcome = Done(cat: Category) | Raised(cat: Category, error: Error)

  /** Where a topic ends: at the end of the file, at the next topic, or in an exception. */
  datatype Next = Eof | Header(row: Row, rest: seq<Row>) | Failed(error: Error)

  /** The line of property fields: two empty fields first. */
  function CheckProperties(row: Row): Option<Error> {
    if row.fields[0] != "" then Some(Asserted)
    else if |row.fields| == 1 then Some(OutOfRange)
    else if row.fields[1] != "" then Some(Asserted)
    else None
  }

  /** The next row, or that of the empty line which `readline` gives at the end. */
  function FirstRow(rows: seq<Row>): Row {
    if rows == [] then Row([""]) else rows[0]
  }

  /** The rest of a topic nobody cares for. */
  function Skip(rows: seq<Row>): Next {
    if rows == [] then Eof
    else if rows[0].fields[0] != "" then Header(rows[0], rows[1..])
    else Skip(rows[1..])
  }

  /** The child an item stands for: nothing for the kinds nobody cares for, or a field that is not there. */
  function MakeChild(top: string, kind: string, row: Row): Result<Option<Child>, Error> {
    if kind == "pymeth" then
      if |row.fields| <= 2 then Err(OutOfRange)
      else Ok(Some(Child(kind, row.fields[2], UrlEscape(top) + "__" + row.fields[2] + "_meth.html")))
    else if kind == "prop" then
      if |row.fields| <= 3 then Err(OutOfRange)
      else Ok(Some(Child(kind, row.fields[3], UrlEscape(top) + "__" + row.fields[3] + "_prop.html")))
    else Ok(None)
  }

  /** The items of a topic. */
  function Items(top: Topic, rows: seq<Row>): (Topic, Next)
    decreases |rows|
  {
    if rows == [] then (top, Eof)
    else if rows[0].fields[0] != "" then (top, Header(rows[0], rows[1..]))
    else if |rows[0].fields| == 1 then (top, Failed(OutOfRange))
    else if rows[0].fields[1] == "" then (top, Failed(Asserted))
    else if |rows| == 1 then (top, Failed(Incomplete))
    else
      match CheckProperties(rows[1])
      case Some(e) => (top, Failed(e))
      case None =>
        match MakeChild(top.name, rows[0].fields[1], rows[1])
        case Err(e) => (top, Failed(e))
        case Ok(None) => Items(top, rows[2..])
        case Ok(Some(child)) => Items(top.(contains := top.contains + [child]), rows[2..])
  }

  /** What one item row and the row of its properties leave to read. */
  function AfterItem(top: Topic, kind: string, props: Row, rest: seq<Row>): (Topic, Next) {
    match CheckProperties(props)
    case Some(e) => (top, Failed(e))
    case None =>
      match MakeChild(top.name, kind, props)
      case Err(e) => (top, Failed(e))
      case Ok(None) => Items(top, rest)
      case Ok(Some(child)) => Items(top.(contains := top.contains + [child]), rest)
  }

  lemma ItemsStep(top: Topic, row: Row, rest: seq<Row>)
    requires row.fields[0] == "" && |row.fields| > 1 && row.fields[1] != ""
    ensures Items(top, [row] + rest)
         == if rest == [] then (top, Failed(Incomplete)) else AfterItem(top, row.fields[1], rest[0], rest[1..])
  {
    if rest != [] {
      assert ([row] + rest)[1] == rest[0] && ([row] + rest)[2..] == rest[1..];
    }
  }

  lemma {:induction false} SkipShorter(rows: seq<Row>)
    ensures Skip(rows).Header? ==> |Skip(rows).rest| < |rows|
  {
    if rows != [] && rows[0].fields[0] == "" {
      SkipShorter(rows[1..]);
    }
  }

  lemma {:induction false} ItemsShorter(top: Topic, rows: seq<Row>)
    ensures Items(top, rows).1.Header? ==> |Items(top, rows).1.rest| < |rows|
    decreases |rows|
  {
    if |rows| > 1 && |rows[0].fields| > 1 && CheckProperties(rows[1]) == None {
      var made := MakeChild(top.name, rows[0].fields[1], rows[1]);
      if made.Ok? {
        ItemsShorter(if made.value == None then top else top.(contains := top.contains + [made.value.value]),
                     rows[2..]);
      }
    }
  }

  /** One topic, from behind its first line: the topic as far as it was read, and where it ends. */
  function OneTopic(header: Row, rows: seq<Row>): (Topic, Next) {
    var none := Topic("", "", "", []);
    if |header.fields| != 3 then (none, Failed(Asserted))
    else if rows == [] then (none, Failed(Incomplete))
    else if |rows[0].fields| != 2 || rows[0].fields[0] != "" then (none, Failed(Asserted))
    else
      var top := Topic(rows[0].fields[1], header.fields[0], header.fields[1] + ".html", []);
      match CheckProperties(FirstRow(rows[1..]))
      case Some(e) => (top, Failed(e))
      case None =>
        var rest := if |rows| == 1 then [] else rows[2..];
        if CaredFor(top.kind) then Items(top, rest) else (top, Skip(rest))
  }

  /** The outer loop. A topic is stored when the next one begins. */
  function Topics(cat: Category, header: Row, rows: seq<Row>): Outcome
    decreases |rows|
  {
    var (top, next) := OneTopic(header, rows);
    match next
    case Eof => Done(cat)
    case Failed(e) => Raised(cat, e)
    case Header(row, rest) =>
      OneTopicShorter(header, rows);
      Topics(Store(cat, top), row, rest)
  }

  lemma OneTopicShorter(header: Row, rows: seq<Row>)
    ensures OneTopic(header, rows).1.Header? ==> |OneTopic(header, rows).1.rest| < |rows|
  {
    if |rows| > 1 && |header.fields| == 3 && |rows[0].fields| == 2 {
      var top := Topic(rows[0].fields[1], header.fields[0], header.fields[1] + ".html", []);
      SkipShorter(rows[2..]);
      ItemsShorter(top, rows[2..]);
    }
  }

  function ParseRows(cat: Category, rows: seq<Row>): Outcome {
    if rows == [] then Done(cat) else Topics(cat, rows[0], rows[1..])
  }

  /** `parseTopics`. */
  function Parse(cat: Category, file: string): Outcome {
    ParseRows(cat, Rows(ReadLines(file)))
  }

  /* ---- The loops ---- */

  /** A reader over the lines of a file; `readline` gives the empty string at the end. */
  class Reader {
    const lines: seq<string>
    var pos: nat

    ghost predicate Valid()
      reads this
    {
      pos <= |lines| && forall i | 0 <= i < |lines| :: lines[i] != ""
    }

    ghost function Rest(): seq<Row>
      requires Valid()
      reads this
    {
      Rows(lines[pos..])
    }

    constructor (file: string)
      ensures Valid() && Rest() == Rows(ReadLines(file)) && pos == 0
    {
      lines := ReadLines(file);
      pos := 0;
      LinesAreNotEmpty(file);
    }

    /** The next line, split; `end` if there is none. */
    method Read() returns (row: Row, end: bool)
      requires Valid()
      modifies this
      ensures Valid() && pos >= old(pos)
      ensures end == (old(Rest()) == [])
      ensures row == FirstRow(old(Rest()))
      ensures Rest() == if end then [] else old(Rest())[1..]
    {
      var line := "";
      if pos < |lines| {
        line := lines[pos];
        assert lines[pos..][1..] == lines[pos + 1..];
        pos := pos + 1;
      }
      end := line == "";
      row := RowOf(line);
    }

    /** Read on to the next topic. */
    method SkipItems() returns (row: Row, end: bool)
      requires Valid()
      modifies this
      ensures Valid()
      ensures Skip(old(Rest())) == if end then Eof else Header(row, Rest())
      ensures !end ==> |Rest()| < |old(Rest())|
    {
      row, end := Read();
      while !end && row.fields[0] == ""
        invariant Valid() && |Rest()| <= |old(Rest())| && (!end ==> |Rest()| < |old(Rest())|)
        invariant Skip(old(Rest())) == if end then Eof else Skip([row] + Rest())
        decreases |Rest()|, !end
      {
        ghost var left := Rest();
        assert ([row] + left)[1..] == left;
        row, end := Read();
        assert left == if end then [] else [row] + Rest();
      }
      assert !end ==> ([row] + Rest())[1..] == Rest();
    }

    /** Read the items of a topic up to the next topic. */
    method ReadItems(start: Topic) returns (top: Topic, row: Row, end: bool, error: Option<Error>)
      requires Valid()
      modifies this
      ensures Valid()
      ensures Items(start, old(Rest()))
              == (top, if error.Some? then Failed(error.value) else if end then Eof else Header(row, Rest()))
      ensures error == None && !end ==> |Rest()| < |old(Rest())|
    {
      top, error := start, None;
      row, end := Read();
      while !end && row.fields[0] == ""
        invariant Valid() && |Rest()| <= |old(Rest())| && (!end ==> |Rest()| < |old(Rest())|)
        invariant Items(start, old(Rest())) == if end then (top, Eof) else Items(top, [row] + Rest())
        decreases |Rest()|, !end
      {
        if |row.fields| == 1 {
          return top, row, end, Some(OutOfRange);
        }
        if row.fields[1] == "" {
          return top, row, end, Some(Asserted);
        }
        var kind := row.fields[1];
        ItemsStep(top, row, Rest());
        var props, over := Read();
        if over {
          return top, row, end, Some(Incomplete);
        }
        var bad := CheckProperties(props);
        if bad.Some? {
          return top, row, end, bad;
        }
        var made := MakeChild(top.name, kind, props);
        if made.Err? {
          return top, row, end, Some(made.error);
        }
        if made.value.Some? {
          top := top.(contains := top.contains + [made.value.value]);
        }
        ghost var left := Rest();
        row, end := Read();
        assert left == if end then [] else [row] + Rest();
      }
      assert !end ==> ([row] + Rest())[1..] == Rest();
    }
  }

  /** `parseTopics`: the outer loop. */
  method ParseTopics(start: Category, file: string) returns (r: Outcome)
    ensures r == Parse(start, file)
  {
    var input := new Reader(file);
    var cat := start;
    var fields, end := input.Read();
    if end {
      return Done(cat);
    }
    while true
      invariant input.Valid() && fresh(input)
      invariant Parse(start, file) == Topics(cat, fields, input.Rest())
      decreases |input.Rest()|
    {
      ghost var rest := input.Rest();
      if |fields.fields| != 3 {
        return Raised(cat, Asserted);
      }
      var line, over := input.Read();
      if over {
        return Raised(cat, Incomplete);
      }
      if |line.fields| != 2 || line.fields[0] != "" {
        return Raised(cat, Asserted);
      }
      var top := Topic(line.fields[1], fields.fields[0], fields.fields[1] + ".html", []);
      var props, _ := input.Read();
      var bad := CheckProperties(props);
      if bad.Some? {
        return Raised(cat, bad.value);
      }
      assert input.Rest() == if |rest| == 1 then [] else rest[2..];
      ghost var header := fields;
      if !CaredFor(top.kind) {
        fields, end := input.SkipItems();
      } else {
        var error: Option<Error>;
        top, fields, end, error := input.ReadItems(top);
        if error.Some? {
          return Raised(cat, error.value);
        }
      }
      if end {
        return Done(cat);
      }
      assert OneTopic(header, rest) == (top, Header(fields, input.Rest()));
      cat := Store(cat, top);
    }
  }

  lemma {:induction false} LinesAreNotEmpty(file: string)
    ensures forall i | 0 <= i < |ReadLines(file)| :: ReadLines(file)[i] != ""
  {
    if file != "" {
      LinesAreNotEmpty(file[1..]);
    }
  }

  /* ---- Printing a dump ---- */

  datatype Item = Item(kind: string, props: seq<string>)

  datatype Entry = Entry(name: string, context: string, kind: string, props: seq<string>, items: seq<Item>)

  function Line(row: Row): string {
    Join(row.fields) + [NEWLINE]
  }

  function ItemRows(items: seq<Item>): seq<Row> {
    if items == [] then []
    else [Row(["", items[0].kind]), Row(["", ""] + items[0].props)] + ItemRows(items[1..])
  }

  function EntryRows(e: Entry): seq<Row> {
    [Row([e.name, e.context, "Tags:"]), Row(["", e.kind]), Row(["", ""] + e.props)] + ItemRows(e.items)
  }

  function DumpRows(dump: seq<Entry>): seq<Row> {
    if dump == [] then [] else EntryRows(dump[0]) + DumpRows(dump[1..])
  }

  function PrintRows(rows: seq<Row>): string {
    if rows == [] then "" else Line(rows[0]) + PrintRows(rows[1..])
  }

  function Print(dump: seq<Entry>): string {
    PrintRows(DumpRows(dump))
  }

  predicate AllClean(fields: seq<string>) {
    forall i | 0 <= i < |fields| :: Clean(fields[i])
  }

  /** An item has a kind, and the fields its kind is read from. */
  predicate GoodItem(i: Item) {
    && i.kind != "" && Clean(i.kind) && AllClean(i.props)
    && (i.kind == "pymeth" ==> |i.props| >= 1)
    && (i.kind == "prop" ==> |i.props| >= 2)
  }

  predicate GoodEntry(e: Entry) {
    && e.name != "" && Clean(e.name) && Clean(e.context) && Clean(e.kind) && AllClean(e.props)
    && forall i | i in e.items :: GoodItem(i)
  }

  predicate GoodDump(dump: seq<Entry>) {
    forall e | e in dump :: GoodEntry(e)
  }

  /* ---- What a dump should leave behind ---- */

  /** What an item becomes: one child, if it is a method or a property. */
  function ChildOf(top: string, i: Item): seq<Child>
    requires GoodItem(i)
  {
    if i.kind == "pymeth" then [Child(i.kind, i.props[0], UrlEscape(top) + "__" + i.props[0] + "_meth.html")]
    else if i.kind == "prop" then [Child(i.kind, i.props[1], UrlEscape(top) + "__" + i.props[1] + "_prop.html")]
    else []
  }

  /** The methods and properties among the items, in their order. */
  function Children(top: string, items: seq<Item>): seq<Child>
    requires forall i | i in items :: GoodItem(i)
  {
    if items == [] then []
    else
      assert items[0] in items;
      ChildOf(top, items[0]) + Children(top, items[1..])
  }

  function TopicOf(e: Entry): Topic
    requires GoodEntry(e)
  {
    Topic(e.kind, e.name, e.context + ".html", Children(e.name, e.items))
  }

  /** The last entry of a kind and name. */
  function LastOf(dump: seq<Entry>, kind: string, name: string): (r: Option<Entry>)
    ensures r.Some? ==> r.value in dump
  {
    if dump == [] then None
    else
      var n := |dump| - 1;
      if dump[n].kind == kind && dump[n].name == name then Some(dump[n]) else LastOf(dump[..n], kind, name)
  }

  function StoreAll(cat: Category, dump: seq<Entry>): Category
    requires GoodDump(dump)
    decreases |dump|
  {
    if dump == [] then cat
    else
      assert dump[0] in dump;
      StoreAll(Store(cat, TopicOf(dump[0])), dump[1..])
  }

  /** What a category has under a kind and a name. */
  function Get(cat: Category, kind: string, name: string): Option<Topic> {
    var d := if kind == "module" then cat.modules else if kind == "object" then cat.objects
             else if kind == "topic" then cat.overviewTopics else if kind == "const" then cat.constants else map[];
    if name in d then Some(d[name]) else None
  }

  /* ---- Reading back what was printed ---- */

  lemma {:induction false} ReadOneLine(line: string, rest: string)
    requires NEWLINE !in line
    ensures ReadLines(line + [NEWLINE] + rest) == [line + [NEWLINE]] + ReadLines(rest)
  {
    if line == "" {
      assert "" + [NEWLINE] + rest == [NEWLINE] + rest;
      assert ([NEWLINE] + rest)[1..] == rest;
    } else {
      ReadOneLine(line[1..], rest);
      assert (line + [NEWLINE] + rest)[1..] == line[1..] + [NEWLINE] + rest;
      assert ([line[1..] + [NEWLINE]] + ReadLines(rest))[1..] == ReadLines(rest);
      assert [line[0]] + (line[1..] + [NEWLINE]) == line + [NEWLINE];
    }
  }

  lemma {:induction false} JoinHasNoNewline(fields: seq<string>)
    requires |fields| > 0 && AllClean(fields)
    ensures NEWLINE !in Join(fields)
  {
    if |fields| > 1 {
      JoinHasNoNewline(fields[1..]);
    }
  }

  lemma {:induction false} RowsOfPrinted(rows: seq<Row>)
    requires forall r | r in rows :: AllClean(r.fields)
    ensures Rows(ReadLines(PrintRows(rows))) == rows
  {
    if rows != [] {
      assert rows[0] in rows;
      RowsOfPrinted(rows[1..]);
      JoinHasNoNewline(rows[0].fields);
      ReadOneLine(Join(rows[0].fields), PrintRows(rows[1..]));
      SplitInvertsJoin(rows[0].fields);
      assert RowOf(Line(rows[0])) == rows[0];
    }
  }

  lemma {:induction false} ItemRowsClean(items: seq<Item>)
    requires forall i | i in items :: GoodItem(i)
    ensures forall r | r in ItemRows(items) :: AllClean(r.fields)
  {
    if items != [] {
      assert items[0] in items;
      ItemRowsClean(items[1..]);
    }
  }

  lemma {:induction false} DumpRowsClean(dump: seq<Entry>)
    requires GoodDump(dump)
    ensures forall r | r in DumpRows(dump) :: AllClean(r.fields)
  {
    if dump != [] {
      assert dump[0] in dump;
      ItemRowsClean(dump[0].items);
      DumpRowsClean(dump[1..]);
    }
  }

  /** Behind the items: the end of the file, or the first line of another topic. */
  predicate AtTopic(rows: seq<Row>) {
    rows != [] ==> rows[0].fields[0] != ""
  }

  function NextTopic(rows: seq<Row>): Next {
    if rows == [] then Eof else Header(rows[0], rows[1..])
  }

  lemma ItemAhead(i: Item, items: seq<Item>, rows: seq<Row>)
    ensures var all := ItemRows([i] + items) + rows;
            && |all| >= 2 && all[0] == Row(["", i.kind]) && all[1] == Row(["", ""] + i.props)
            && all[2..] == ItemRows(items) + rows
  {
    assert ([i] + items)[1..] == items;
  }

  lemma SkipTwo(rows: seq<Row>)
    requires |rows| >= 2 && rows[0].fields[0] == "" && rows[1].fields[0] == ""
    ensures Skip(rows) == Skip(rows[2..])
  {
    assert rows[1..][0] == rows[1] && rows[1..][1..] == rows[2..];
  }

  lemma {:induction false} SkipsItems(items: seq<Item>, rows: seq<Row>)
    requires AtTopic(rows)
    ensures Skip(ItemRows(items) + rows) == NextTopic(rows)
  {
    if items == [] {
      assert ItemRows(items) + rows == rows;
    } else {
      var all := ItemRows(items) + rows;
      assert [items[0]] + items[1..] == items;
      ItemAhead(items[0], items[1..], rows);
      SkipsItems(items[1..], rows);
      SkipTwo(all);
    }
  }

  lemma MakesChild(top: string, i: Item)
    requires GoodItem(i)
    ensures var made := MakeChild(top, i.kind, Row(["", ""] + i.props));
            made.Ok? && ChildOf(top, i) == if made.value == None then [] else [made.value.value]
    ensures CheckProperties(Row(["", ""] + i.props)) == None
  {
  }

  lemma Reassociate<T>(a: seq<T>, b: seq<T>, c: seq<T>)
    ensures a + b + c == a + (b + c) && a + [] == a
  {
  }

  lemma {:induction false} ReadsItems(top: Topic, items: seq<Item>, rows: seq<Row>)
    requires AtTopic(rows) && forall i | i in items :: GoodItem(i)
    ensures Items(top, ItemRows(items) + rows)
            == (top.(contains := top.contains + Children(top.name, items)), NextTopic(rows))
    decreases |items|
  {
    Reassociate(top.contains, [], []);
    if items == [] {
      assert ItemRows(items) + rows == rows;
    } else {
      assert items[0] in items;
      var made := ChildOf(top.name, items[0]);
      assert [items[0]] + items[1..] == items;
      ItemAhead(items[0], items[1..], rows);
      MakesChild(top.name, items[0]);
      ReadsItems(top.(contains := top.contains + made), items[1..], rows);
      Reassociate(top.contains, made, Children(top.name, items[1..]));
    }
  }

  lemma EntryAhead(e: Entry, rows: seq<Row>)
    ensures var all := EntryRows(e) + rows;
            && |all| >= 3 && all[0] == Row([e.name, e.context, "Tags:"]) && all[1] == Row(["", e.kind])
            && all[2] == Row(["", ""] + e.props) && all[3..] == ItemRows(e.items) + rows
  {
  }

  /** One printed topic, read back. */
  lemma ReadsTopic(e: Entry, rows: seq<Row>)
    requires GoodEntry(e) && AtTopic(rows)
    ensures var all := EntryRows(e) + rows;
            var (top, next) := OneTopic(all[0], all[1..]);
            && next == NextTopic(rows) && top.kind == e.kind && (CaredFor(e.kind) ==> top == TopicOf(e))
  {
    var all := EntryRows(e) + rows;
    EntryAhead(e, rows);
    assert all[1..][0] == all[1] && all[1..][1..][0] == all[2] && all[1..][2..] == all[3..];
    var top := Topic(e.kind, e.name, e.context + ".html", []);
    SkipsItems(e.items, rows);
    ReadsItems(top, e.items, rows);
    assert [] + Children(e.name, e.items) == Children(e.name, e.items);
  }

  lemma DumpAtTopic(dump: seq<Entry>)
    requires GoodDump(dump)
    ensures AtTopic(DumpRows(dump)) && (DumpRows(dump) == [] <==> dump == [])
  {
    if dump != [] {
      assert dump[0] in dump;
      EntryAhead(dump[0], DumpRows(dump[1..]));
    }
  }

  lemma {:induction false} ReadsDump(cat: Category, dump: seq<Entry>)
    requires dump != [] && GoodDump(dump)
    ensures ParseRows(cat, DumpRows(dump)) == Done(StoreAll(cat, dump[..|dump| - 1]))
    decreases |dump|
  {
    var e, rest := dump[0], dump[1..];
    assert e in dump;
    DumpAtTopic(rest);
    EntryAhead(e, DumpRows(rest));
    ReadsTopic(e, DumpRows(rest));
    if rest != [] {
      assert dump[..|dump| - 1][0] == e && dump[..|dump| - 1][1..] == rest[..|rest| - 1];
      ReadsDump(Store(cat, TopicOf(e)), rest);
    }
  }

  /** Parsing inverts printing: from any well-formed dump the parser leaves behind exactly what storing
      all of its topics but the last one leaves behind. */
  lemma ParseInvertsPrint(cat: Category, dump: seq<Entry>)
    requires GoodDump(dump)
    ensures Parse(cat, Print(dump)) == Done(if dump == [] then cat else StoreAll(cat, dump[..|dump| - 1]))
  {
    DumpRowsClean(dump);
    RowsOfPrinted(DumpRows(dump));
    if dump != [] {
      ReadsDump(cat, dump);
    }
  }

  /** Whatever the last topic of a file is, it leaves no trace. */
  lemma LastTopicIsLost(cat: Category, dump: seq<Entry>, e: Entry, other: Entry)
    requires GoodDump(dump) && GoodEntry(e) && GoodEntry(other)
    ensures Parse(cat, Print(dump + [e])) == Parse(cat, Print(dump + [other]))
  {
    ParseInvertsPrint(cat, dump + [e]);
    ParseInvertsPrint(cat, dump + [other]);
    assert (dump + [e])[..|dump|] == (dump + [other])[..|dump|];
  }

  lemma {:induction false} StoreAllAppend(cat: Category, dump: seq<Entry>, e: Entry)
    requires GoodDump(dump) && GoodEntry(e)
    ensures GoodDump(dump + [e]) && StoreAll(cat, dump + [e]) == Store(StoreAll(cat, dump), TopicOf(e))
    decreases |dump|
  {
    if dump != [] {
      assert dump[0] in dump;
      StoreAllAppend(Store(cat, TopicOf(dump[0])), dump[1..], e);
      assert (dump + [e])[0] == dump[0] && (dump + [e])[1..] == dump[1..] + [e];
    } else {
      assert dump + [e] == [e];
    }
  }

  /** Later topics win: under a kind that is cared for and a name stands the last topic of that kind and
      name, with its methods and properties, or what was there before; nothing stands under other kinds. */
  lemma {:induction false} StoredIsLast(cat: Category, dump: seq<Entry>, kind: string, name: string)
    requires GoodDump(dump)
    ensures Get(StoreAll(cat, dump), kind, name)
            == match LastOf(dump, kind, name)
               case Some(e) => if CaredFor(kind) then Some(TopicOf(e)) else None
               case None => Get(cat, kind, name)
    decreases |dump|
  {
    if dump != [] {
      var n := |dump| - 1;
      assert dump[n] in dump;
      StoredIsLast(cat, dump[..n], kind, name);
      StoreAllAppend(cat, dump[..n], dump[n]);
      assert dump[..n] + [dump[n]] == dump;
      StoreGets(StoreAll(cat, dump[..n]), TopicOf(dump[n]), kind, name);
    }
  }

  lemma StoreGets(cat: Category, t: Topic, kind: string, name: string)
    ensures Get(Store(cat, t), kind, name)
            == if t.kind == kind && t.name == name then (if CaredFor(kind) then Some(t) else None)
               else Get(cat, kind, name)
  {
  }

  lemma {:induction false} ReplaceConcat(a: string, b: string, c: char, with: string)
    ensures Replace(a + b, c, with) == Replace(a, c, with) + Replace(b, c, with)
  {
    if a == "" {
      assert a + b == b;
    } else {
      ReplaceConcat(a[1..], b, c, with);
      assert (a + b)[1..] == a[1..] + b;
      Reassociate(if a[0] == c then with else [a[0]], Replace(a[1..], c, with), Replace(b, c, with));
    }
  }

  /** What the three replacements make of one character. */
  function Escaped(c: char): string {
    if c == ' ' then "_" else if c == '(' then ".28" else if c == ')' then ".29" else [c]
  }

  /** The replacements do not disturb each other: each character is escaped on its own. */
  lemma {:induction false} EscapeIsPerCharacter(a: string, c: char, b: string)
    ensures UrlEscape(a + [c] + b) == UrlEscape(a) + Escaped(c) + UrlEscape(b)
  {
    EscapeConcat(a + [c], b);
    EscapeConcat(a, [c]);
    EscapeOne(c);
  }

  lemma EscapeConcat(a: string, b: string)
    ensures UrlEscape(a + b) == UrlEscape(a) + UrlEscape(b)
  {
    ReplaceConcat(a, b, ' ', "_");
    var x, y := Replace(a, ' ', "_"), Replace(b, ' ', "_");
    ReplaceConcat(x, y, '(', ".28");
    ReplaceConcat(Replace(x, '(', ".28"), Replace(y, '(', ".28"), ')', ".29");
  }

  lemma ReplaceOne(d: char, c: char, with: string)
    ensures Replace([d], c, with) == if d == c then with else [d]
  {
    assert [d][1..] == "";
    assert with + "" == with;
  }

  lemma {:induction false} ReplaceAbsent(s: string, c: char, with: string)
    requires c !in s
    ensures Replace(s, c, with) == s
  {
    if s != "" {
      ReplaceAbsent(s[1..], c, with);
      assert s == [s[0]] + s[1..];
    }
  }

  lemma EscapeOne(c: char)
    ensures UrlEscape([c]) == Escaped(c)
  {
    ReplaceOne(c, ' ', "_");
    ReplaceOne(c, '(', ".28");
    ReplaceOne(c, ')', ".29");
    ReplaceAbsent("_", '(', ".28");
    ReplaceAbsent("_", ')', ".29");
    ReplaceAbsent(".28", ')', ".29");
  }
}
