/** The canonical Zero publication: printing the SET TABLE statement, checking the shape, and creating
    or repairing the publication (backend/app/zero_publication.py). */
module Publication {
  import opened Common

  const NAME := "zero_publication"
  const SEED := "notifications"
  const VERSION_COLUMN := "_0_version"

  /** A table and its published columns; None publishes all of them. */
  datatype Entry = Entry(table: string, columns: Option<seq<string>>)

  /** The canonical tables in order, and those that get a version column when it exists. */
  datatype Canon = Canon(entries: seq<Entry>, versioned: set<string>)

  type Shape = map<string, Option<multiset<string>>>

  /** The schema's tables with their columns, and the publication if it exists: for each published table its
      columns, in no order because the source compares sorted lists. */
  datatype Db = Db(tables: map<string, set<string>>, publication: Option<Shape>)

  function TableColumns(db: Db, table: string): set<string> {
    if table in db.tables then db.tables[table] else {}
  }

  function ExpectedColumns(db: Db, canon: Canon, e: Entry): Option<seq<string>> {
    match e.columns
    case None => None
    case Some(columns) =>
      Some(if e.table in canon.versioned && VERSION_COLUMN in TableColumns(db, e.table)
          then columns + [VERSION_COLUMN] else columns)
  }

  /** The table exists and has every canonical column. */
  predicate Ready(db: Db, canon: Canon, e: Entry) {
    && TableColumns(db, e.table) != {}
    && (ExpectedColumns(db, canon, e).Some? ==>
          forall c :: c in ExpectedColumns(db, canon, e).value ==> c in TableColumns(db, e.table))
  }

  /** The expected columns are the canonical ones, followed by the version column where the table is to have one and
      has it. */
  lemma ExpectedColumnsAre(db: Db, canon: Canon, e: Entry)
    ensures e.columns.None? ==> ExpectedColumns(db, canon, e) == None
    ensures e.columns.Some? ==>
              ExpectedColumns(db, canon, e)
              == Some(e.columns.value
                      + if e.table in canon.versioned && e.table in db.tables && "_0_version" in db.tables[e.table]
                        then ["_0_version"] else [])
  {
    if e.columns.Some? {
      assert e.columns.value + [] == e.columns.value;
    }
  }

  // ---- printing ----------------------------------------------------------------------

  function Escape(s: string): string {
    if s == "" then "" else (if s[0] == '"' then "\"\"" else [s[0]]) + Escape(s[1..])
  }

  function Quote(s: string): string { "\"" + Escape(s) + "\"" }

  function JoinComma(parts: seq<string>): string {
    if parts == [] then "" else if |parts| == 1 then parts[0] else parts[0] + ", " + JoinComma(parts[1..])
  }

  function QuoteAll(names: seq<string>): seq<string> {
    if names == [] then [] else [Quote(names[0])] + QuoteAll(names[1..])
  }

  function PrintEntry(e: Entry): string {
    Quote(e.table) + match e.columns case None => "" case Some(columns) => " (" + JoinComma(QuoteAll(columns)) + ")"
  }

  function PrintEntries(es: seq<Entry>): seq<string> {
    if es == [] then [] else [PrintEntry(es[0])] + PrintEntries(es[1..])
  }

  function FormatTableEntry(db: Db, canon: Canon, e: Entry): Option<string> {
    if Ready(db, canon, e) then Some(PrintEntry(Entry(e.table, ExpectedColumns(db, canon, e)))) else None
  }

  /** The ready tables with their expected columns. */
  function ReadyEntries(db: Db, canon: Canon, es: seq<Entry>): seq<Entry> {
    if es == [] then []
    else
      (if Ready(db, canon, es[0]) then [Entry(es[0].table, ExpectedColumns(db, canon, es[0]))] else [])
      + ReadyEntries(db, canon, es[1..])
  }

  const PREFIX := "ALTER PUBLICATION "
  const MIDDLE := " SET TABLE "

  function Statement(prefix: string, name: string, middle: string, es: seq<Entry>): string {
    prefix + Quote(name) + middle + JoinComma(PrintEntries(es))
  }

  function SetTableSql(es: seq<Entry>): string {
    Statement(PREFIX, NAME, MIDDLE, es)
  }

  lemma {:induction false} ReadyConcat(db: Db, canon: Canon, a: seq<Entry>, b: seq<Entry>)
    ensures ReadyEntries(db, canon, a + b) == ReadyEntries(db, canon, a) + ReadyEntries(db, canon, b)
  {
    if a == [] {
      assert a + b == b;
    } else {
      assert (a + b)[1..] == a[1..] + b;
      ReadyConcat(db, canon, a[1..], b);
    }
  }

  lemma {:induction false} PrintConcat(a: seq<Entry>, b: seq<Entry>)
    ensures PrintEntries(a + b) == PrintEntries(a) + PrintEntries(b)
  {
    if a == [] {
      assert a + b == b;
    } else {
      assert (a + b)[1..] == a[1..] + b;
      PrintConcat(a[1..], b);
    }
  }

  lemma {:induction false} ReadyTake(db: Db, canon: Canon, es: seq<Entry>, i: nat)
    requires i < |es|
    ensures PrintEntries(ReadyEntries(db, canon, es[..i + 1]))
            == PrintEntries(ReadyEntries(db, canon, es[..i]))
               + match FormatTableEntry(db, canon, es[i]) case None => [] case Some(text) => [text]
  {
    assert es[..i + 1] == es[..i] + [es[i]];
    ReadyConcat(db, canon, es[..i], [es[i]]);
    PrintConcat(ReadyEntries(db, canon, es[..i]), ReadyEntries(db, canon, [es[i]]));
    assert ReadyEntries(db, canon, []) == [];
  }

  method BuildSetTableSql(db: Db, canon: Canon) returns (sql: string)
    ensures sql == SetTableSql(ReadyEntries(db, canon, canon.entries))
  {
    var entries: seq<string> := [];
    for i := 0 to |canon.entries|
      invariant entries == PrintEntries(ReadyEntries(db, canon, canon.entries[..i]))
    {
      ReadyTake(db, canon, canon.entries, i);
      var entry := FormatTableEntry(db, canon, canon.entries[i]);
      if entry.Some? {
        entries := entries + [entry.value];
      }
    }
    assert canon.entries[..|canon.entries|] == canon.entries;
    sql := PREFIX + Quote(NAME) + MIDDLE + JoinComma(entries);
  }

  // ---- reading the statement back -------------------------------------------------------

  /** The rest of a quoted identifier, after its opening quote, and what follows it (section 4.1.1 of
      the PostgreSQL manual: a quote inside is written twice). */
  function ReadQuoted(s: string): Option<(string, string)>
    decreases |s|
  {
    if s == "" then None
    else if s[0] != '"' then Before(s[0], ReadQuoted(s[1..]))
    else if |s| > 1 && s[1] == '"' then Before('"', ReadQuoted(s[2..]))
    else Some(("", s[1..]))
  }

  function Before(c: char, r: Option<(string, string)>): Option<(string, string)> {
    match r case Some(x) => Some(([c] + x.0, x.1)) case None => None
  }

  function ReadIdentifier(s: string): (r: Option<(string, string)>)
    ensures r.Some? ==> |r.value.1| < |s|
  {
    if s != "" && s[0] == '"' then
      ReadQuotedShrinks(s[1..]);
      ReadQuoted(s[1..])
    else None
  }

  lemma {:induction false} ReadQuotedShrinks(s: string)
    ensures ReadQuoted(s).Some? ==> |ReadQuoted(s).value.1| <= |s|
    decreases |s|
  {
    if s != "" && s[0] != '"' {
      ReadQuotedShrinks(s[1..]);
    } else if |s| > 1 && s[1] == '"' {
      ReadQuotedShrinks(s[2..]);
    }
  }

  /** A column list up to its closing parenthesis. */
  function ReadColumns(s: string): (r: Option<(seq<string>, string)>)
    ensures r.Some? ==> |r.value.1| < |s|
    decreases |s|
  {
    match ReadIdentifier(s)
    case None => None
    case Some(x) =>
      if StartsWith(x.1, ")") then Some(([x.0], x.1[1..]))
      else if StartsWith(x.1, ", ") then
        (match ReadColumns(x.1[2..])
         case None => None
         case Some(more) => Some(([x.0] + more.0, more.1)))
      else None
  }

  function ReadEntry(s: string): (r: Option<(Entry, string)>)
    ensures r.Some? ==> |r.value.1| < |s|
  {
    match ReadIdentifier(s)
    case None => None
    case Some(x) =>
      if StartsWith(x.1, " (") then
        (match ReadColumns(x.1[2..])
         case None => None
         case Some(cs) => Some((Entry(x.0, Some(cs.0)), cs.1)))
      else Some((Entry(x.0, None), x.1))
  }

  function ReadEntries(s: string): Option<seq<Entry>>
    decreases |s|
  {
    match ReadEntry(s)
    case None => None
    case Some(x) =>
      if x.1 == "" then Some([x.0])
      else if StartsWith(x.1, ", ") then
        (match ReadEntries(x.1[2..])
         case None => None
         case Some(more) => Some([x.0] + more))
      else None
  }

  function ReadStatement(prefix: string, middle: string, sql: string): Option<(string, seq<Entry>)> {
    if !StartsWith(sql, prefix) then None
    else
      match ReadIdentifier(sql[|prefix|..])
      case None => None
      case Some(x) =>
        if !StartsWith(x.1, middle) then None
        else
          match ReadEntries(x.1[|middle|..])
          case None => None
          case Some(es) => Some((x.0, es))
  }

  function ReadSetTable(sql: string): Option<(string, seq<Entry>)> {
    ReadStatement("ALTER PUBLICATION ", " SET TABLE ", sql)
  }

  // ---- round trip -----------------------------------------------------------------------

  lemma {:induction false} QuotedReadsBack(s: string, rest: string)
    requires rest == "" || rest[0] != '"'
    ensures ReadQuoted(Escape(s) + "\"" + rest) == Some((s, rest))
  {
    var text := Escape(s) + "\"" + rest;
    if s == "" {
      assert text == "\"" + rest;
      assert text[1..] == rest;
    } else {
      QuotedReadsBack(s[1..], rest);
      var tail := Escape(s[1..]) + "\"" + rest;
      assert s == [s[0]] + s[1..];
      if s[0] == '"' {
        assert text == "\"\"" + tail;
        assert text[2..] == tail;
      } else {
        assert text == [s[0]] + tail;
        assert text[1..] == tail;
      }
    }
  }

  lemma IdentifierReadsBack(s: string, rest: string)
    requires rest == "" || rest[0] != '"'
    ensures ReadIdentifier(Quote(s) + rest) == Some((s, rest))
  {
    QuotedReadsBack(s, rest);
    var text := Quote(s) + rest;
    assert text[1..] == Escape(s) + "\"" + rest;
  }

  lemma {:induction false} LastColumnReads(c: string, rest: string)
    ensures ReadColumns(Quote(c) + (")" + rest)) == Some(([c], rest))
  {
    IdentifierReadsBack(c, ")" + rest);
    assert (")" + rest)[..1] == ")" && (")" + rest)[1..] == rest;
  }

  lemma {:induction false} ColumnReads(c: string, tail: string, more: seq<string>, rest: string)
    requires ReadColumns(tail) == Some((more, rest))
    ensures ReadColumns(Quote(c) + (", " + tail)) == Some(([c] + more, rest))
  {
    SeparatorAhead(tail);
    IdentifierReadsBack(c, ", " + tail);
  }

  /** What a joined list looks like from its front: the first part alone, or before a separator. */
  lemma {:induction false} JoinedAhead(part: string, more: seq<string>, rest: string)
    ensures JoinComma([part]) + rest == part + rest
    ensures more != [] ==> JoinComma([part] + more) + rest == part + (", " + (JoinComma(more) + rest))
  {
    if more != [] {
      var parts := [part] + more;
      assert parts[0] == part && parts[1..] == more;
      assert JoinComma(parts) == part + ", " + JoinComma(more);
      assert part + ", " + JoinComma(more) + rest == part + (", " + (JoinComma(more) + rest));
    }
  }

  lemma {:induction false} QuotedAhead(c: string, more: seq<string>)
    ensures QuoteAll([c] + more) == [Quote(c)] + QuoteAll(more)
    ensures QuoteAll(more) == [] <==> more == []
  {
    assert ([c] + more)[1..] == more;
  }

  lemma {:induction false} ColumnsReadBack(columns: seq<string>, rest: string)
    requires columns != []
    ensures ReadColumns(JoinComma(QuoteAll(columns)) + (")" + rest)) == Some((columns, rest))
  {
    var c, more := columns[0], columns[1..];
    assert columns == [c] + more;
    QuotedAhead(c, more);
    JoinedAhead(Quote(c), QuoteAll(more), ")" + rest);
    if more == [] {
      assert [Quote(c)] + QuoteAll(more) == [Quote(c)];
      LastColumnReads(c, rest);
      assert columns == [c];
    } else {
      ColumnsReadBack(more, rest);
      ColumnReads(c, JoinComma(QuoteAll(more)) + (")" + rest), more, rest);
    }
  }

  lemma SeparatorAhead(tail: string)
    ensures var s := ", " + tail;
      && s[0] != '"' && !StartsWith(s, ")") && !StartsWith(s, " (")
      && StartsWith(s, ", ") && s[2..] == tail
  {
    var s := ", " + tail;
    assert s[..2] == ", " && s[0] == ',' && s[..1][0] == ',';
    assert s[..2][0] == ',';
  }

  lemma EntryReadsBack(e: Entry, rest: string)
    requires e.columns.Some? ==> e.columns.value != []
    requires rest == "" || StartsWith(rest, ", ")
    ensures ReadEntry(PrintEntry(e) + rest) == Some((e, rest))
  {
    if StartsWith(rest, ", ") {
      SeparatorAhead(rest[2..]);
      assert rest == ", " + rest[2..];
    }
    match e.columns
    case None =>
      assert PrintEntry(e) + rest == Quote(e.table) + rest;
      IdentifierReadsBack(e.table, rest);
    case Some(columns) =>
      var inner := JoinComma(QuoteAll(columns)) + (")" + rest);
      assert PrintEntry(e) + rest == Quote(e.table) + (" (" + inner);
      IdentifierReadsBack(e.table, " (" + inner);
      assert (" (" + inner)[..2] == " (" && (" (" + inner)[2..] == inner;
      ColumnsReadBack(columns, rest);
  }

  ghost predicate Printable(es: seq<Entry>) {
    forall i :: 0 <= i < |es| && es[i].columns.Some? ==> es[i].columns.value != []
  }

  lemma {:induction false} EntryReads(e: Entry, tail: string, more: seq<Entry>)
    requires e.columns.Some? ==> e.columns.value != []
    requires ReadEntries(tail) == Some(more)
    ensures ReadEntries(PrintEntry(e) + (", " + tail)) == Some([e] + more)
  {
    SeparatorAhead(tail);
    EntryReadsBack(e, ", " + tail);
  }

  lemma {:induction false} PrintedAhead(e: Entry, more: seq<Entry>)
    ensures PrintEntries([e] + more) == [PrintEntry(e)] + PrintEntries(more)
    ensures PrintEntries(more) == [] <==> more == []
  {
    assert ([e] + more)[1..] == more;
  }

  lemma LastEntryReads(e: Entry)
    requires e.columns.Some? ==> e.columns.value != []
    ensures ReadEntries(PrintEntry(e)) == Some([e])
  {
    EntryReadsBack(e, "");
    assert PrintEntry(e) + "" == PrintEntry(e);
  }

  lemma {:induction false} EntriesReadBack(es: seq<Entry>)
    requires es != [] && Printable(es)
    ensures ReadEntries(JoinComma(PrintEntries(es))) == Some(es)
  {
    var e, more := es[0], es[1..];
    assert es == [e] + more;
    PrintedAhead(e, more);
    JoinedAhead(PrintEntry(e), PrintEntries(more), "");
    if more == [] {
      assert [PrintEntry(e)] + PrintEntries(more) == [PrintEntry(e)];
      LastEntryReads(e);
      assert es == [e];
    } else {
      EntriesReadBack(more);
      var list := JoinComma(PrintEntries(more));
      EntryReads(e, list, more);
      assert list + "" == list && JoinComma(PrintEntries(es)) + "" == JoinComma(PrintEntries(es));
    }
  }

  lemma StatementReadsBack(prefix: string, name: string, middle: string, es: seq<Entry>)
    requires es != [] && Printable(es) && middle != "" && middle[0] != '"'
    ensures ReadStatement(prefix, middle, Statement(prefix, name, middle, es)) == Some((name, es))
  {
    var list := JoinComma(PrintEntries(es));
    var sql := Statement(prefix, name, middle, es);
    assert sql == prefix + (Quote(name) + (middle + list));
    assert sql[..|prefix|] == prefix && sql[|prefix|..] == Quote(name) + (middle + list);
    IdentifierReadsBack(name, middle + list);
    assert (middle + list)[..|middle|] == middle && (middle + list)[|middle|..] == list;
    EntriesReadBack(es);
  }

  /** Reading the printed statement gives back exactly the name, the tables and their column lists,
      whatever characters the identifiers contain. */
  lemma SetTableReadsBack(es: seq<Entry>)
    requires es != [] && Printable(es)
    ensures ReadSetTable(SetTableSql(es)) == Some(("zero_publication", es))
  {
    StatementReadsBack(PREFIX, NAME, MIDDLE, es);
  }

  // ---- nothing else reads -----------------------------------------------------------------

  lemma {:induction false} QuotedIsPrinted(s: string)
    ensures ReadQuoted(s).Some? ==>
              var (name, rest) := ReadQuoted(s).value; s == Escape(name) + "\"" + rest
    decreases |s|
  {
    if s != "" && s[0] != '"' {
      QuotedIsPrinted(s[1..]);
      if ReadQuoted(s[1..]).Some? {
        OneMore(s, [s[0]], s[1..], ReadQuoted(s[1..]).value.0, ReadQuoted(s[1..]).value.1, s[0]);
      }
    } else if |s| > 1 && s[1] == '"' {
      QuotedIsPrinted(s[2..]);
      if ReadQuoted(s[2..]).Some? {
        OneMore(s, "\"\"", s[2..], ReadQuoted(s[2..]).value.0, ReadQuoted(s[2..]).value.1, '"');
      }
    } else if s != "" {
      assert s == Escape("") + "\"" + s[1..];
    }
  }

  lemma {:induction false} OneMore(s: string, front: string, tail: string, name: string, rest: string, c: char)
    requires s == front + tail && tail == Escape(name) + "\"" + rest
    requires front == if c == '"' then "\"\"" else [c]
    ensures s == Escape([c] + name) + "\"" + rest
  {
    assert ([c] + name)[1..] == name;
    assert Escape([c] + name) == front + Escape(name);
  }

  lemma IdentifierIsPrinted(s: string)
    ensures ReadIdentifier(s).Some? ==> s == Quote(ReadIdentifier(s).value.0) + ReadIdentifier(s).value.1
  {
    if s != "" && s[0] == '"' {
      QuotedIsPrinted(s[1..]);
    }
  }

  lemma {:induction false} ColumnsArePrinted(s: string)
    ensures ReadColumns(s).Some? ==>
              var (columns, rest) := ReadColumns(s).value;
              columns != [] && s == JoinComma(QuoteAll(columns)) + (")" + rest)
    decreases |s|
  {
    IdentifierIsPrinted(s);
    if ReadIdentifier(s).Some? {
      var (c, after) := ReadIdentifier(s).value;
      QuotedAhead(c, []);
      if StartsWith(after, ")") {
        assert after == ")" + after[1..] && QuoteAll([c]) == [Quote(c)];
      } else if StartsWith(after, ", ") {
        ColumnsArePrinted(after[2..]);
        if ReadColumns(after[2..]).Some? {
          var (more, rest) := ReadColumns(after[2..]).value;
          assert after == ", " + after[2..];
          QuotedAhead(c, more);
          JoinedAhead(Quote(c), QuoteAll(more), ")" + rest);
        }
      }
    }
  }

  lemma EntryIsPrinted(s: string)
    ensures ReadEntry(s).Some? ==>
              var (e, rest) := ReadEntry(s).value;
              (e.columns.Some? ==> e.columns.value != []) && s == PrintEntry(e) + rest
  {
    IdentifierIsPrinted(s);
    if ReadIdentifier(s).Some? {
      var (table, after) := ReadIdentifier(s).value;
      if StartsWith(after, " (") {
        ColumnsArePrinted(after[2..]);
        if ReadColumns(after[2..]).Some? {
          ListIsPrinted(table, after, ReadColumns(after[2..]).value.0, ReadColumns(after[2..]).value.1);
        }
      } else {
        assert Quote(table) + "" == Quote(table);
      }
    }
  }

  lemma {:induction false} ListIsPrinted(table: string, after: string, columns: seq<string>, rest: string)
    requires StartsWith(after, " (") && after[2..] == JoinComma(QuoteAll(columns)) + (")" + rest)
    ensures Quote(table) + after == PrintEntry(Entry(table, Some(columns))) + rest
  {
    var list := JoinComma(QuoteAll(columns));
    assert after == " (" + (list + (")" + rest));
    assert Quote(table) + (" (" + (list + (")" + rest))) == Quote(table) + (" (" + list + ")") + rest;
  }

  lemma {:induction false} EntriesArePrinted(s: string)
    ensures ReadEntries(s).Some? ==>
              var es := ReadEntries(s).value;
              es != [] && Printable(es) && s == JoinComma(PrintEntries(es))
    decreases |s|
  {
    EntryIsPrinted(s);
    if ReadEntry(s).Some? {
      var (e, after) := ReadEntry(s).value;
      PrintedAhead(e, []);
      if after == "" {
        assert PrintEntries([e]) == [PrintEntry(e)] && PrintEntry(e) + "" == PrintEntry(e);
      } else if StartsWith(after, ", ") {
        EntriesArePrinted(after[2..]);
        if ReadEntries(after[2..]).Some? {
          MoreEntries(s, e, after, ReadEntries(after[2..]).value);
        }
      }
    }
  }

  lemma {:induction false} MoreEntries(s: string, e: Entry, after: string, more: seq<Entry>)
    requires s == PrintEntry(e) + after && StartsWith(after, ", ") && after[2..] == JoinComma(PrintEntries(more))
    requires more != [] && Printable(more) && (e.columns.Some? ==> e.columns.value != [])
    ensures Printable([e] + more) && s == JoinComma(PrintEntries([e] + more))
  {
    var list := JoinComma(PrintEntries(more));
    PrintedAhead(e, more);
    JoinedAhead(PrintEntry(e), PrintEntries(more), "");
    assert after == ", " + list && list + "" == list;
    assert JoinComma(PrintEntries([e] + more)) + "" == JoinComma(PrintEntries([e] + more));
  }

  lemma StatementIsPrinted(prefix: string, middle: string, sql: string)
    ensures ReadStatement(prefix, middle, sql).Some? ==>
              var (name, es) := ReadStatement(prefix, middle, sql).value;
              && es != [] && Printable(es)
              && sql == prefix + (Quote(name) + (middle + JoinComma(PrintEntries(es))))
  {
    if StartsWith(sql, prefix) {
      var s := sql[|prefix|..];
      IdentifierIsPrinted(s);
      if ReadIdentifier(s).Some? && StartsWith(ReadIdentifier(s).value.1, middle) {
        var (name, after) := ReadIdentifier(s).value;
        EntriesArePrinted(after[|middle|..]);
        assert sql == prefix + s && after == middle + after[|middle|..];
      }
    }
  }

  /** The other direction: a text reads as a statement only if it is what printing its name and tables gives. */
  lemma OnlyPrintedReads(sql: string)
    ensures ReadSetTable(sql).Some? ==>
              var (name, es) := ReadSetTable(sql).value;
              && es != [] && Printable(es)
              && sql == "ALTER PUBLICATION " + (Quote(name) + (" SET TABLE " + JoinComma(PrintEntries(es))))
  {
    StatementIsPrinted("ALTER PUBLICATION ", " SET TABLE ", sql);
  }
}
