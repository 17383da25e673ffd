/** Creating, checking and repairing the publication (backend/app/zero_publication.py:101-113, 166-270).
    The server keeps a set of columns for each published table, so a column list is compared, as the
    sorted lists are, without its order. */
module PublicationRepair {
  import opened Common
  import opened Publication

  function Key(columns: Option<seq<string>>): Option<multiset<string>> {
    match columns case None => None case Some(cs) => Some(multiset(cs))
  }

  function ShapeOf(es: seq<Entry>): Shape {
    if es == [] then map[] else ShapeOf(es[1..])[es[0].table := Key(es[0].columns)]
  }

  function ExpectedEntries(db: Db, canon: Canon, es: seq<Entry>): seq<Entry> {
    if es == [] then []
    else [Entry(es[0].table, ExpectedColumns(db, canon, es[0]))] + ExpectedEntries(db, canon, es[1..])
  }

  function ExpectedShape(db: Db, canon: Canon): Shape {
    ShapeOf(ExpectedEntries(db, canon, canon.entries))
  }

  function ReadyShape(db: Db, canon: Canon): Shape {
    ShapeOf(ReadyEntries(db, canon, canon.entries))
  }

  predicate DistinctTables(es: seq<Entry>) {
    forall i, j :: 0 <= i < j < |es| ==> es[i].table != es[j].table
  }

  predicate Distinct(names: seq<string>) {
    forall i, j :: 0 <= i < j < |names| ==> names[i] != names[j]
  }

  predicate GoodColumns(e: Entry) {
    e.columns.Some? ==> e.columns.value != [] && Distinct(e.columns.value) && VERSION_COLUMN !in e.columns.value
  }

  /** The definition names each table once, lists no column twice, and publishes the seed table whole. */
  ghost predicate GoodCanon(canon: Canon) {
    && DistinctTables(canon.entries)
    && (forall i :: 0 <= i < |canon.entries| ==> GoodColumns(canon.entries[i]))
    && Entry(SEED, None) in canon.entries
  }

  ghost predicate AllReady(db: Db, canon: Canon) {
    forall i :: 0 <= i < |canon.entries| ==> Ready(db, canon, canon.entries[i])
  }

  ghost predicate SomeReady(db: Db, canon: Canon) {
    exists i :: 0 <= i < |canon.entries| && Ready(db, canon, canon.entries[i])
  }

  /** The publication is exactly the unfiltered canonical shape. */
  predicate Canonical(db: Db, canon: Canon) {
    db.publication == Some(ExpectedShape(db, canon))
  }

  /** What the server guarantees: tables have columns, and only existing tables and columns are published. */
  ghost predicate GoodDb(db: Db) {
    && (forall t :: t in db.tables ==> db.tables[t] != {})
    && (db.publication.Some? ==>
          forall t :: t in db.publication.value ==>
            && t in db.tables
            && (db.publication.value[t].Some? ==> forall c :: c in db.publication.value[t].value ==> c in db.tables[t]))
  }

  // ---- the server ------------------------------------------------------------------------

  predicate AcceptableEntry(db: Db, e: Entry) {
    && e.table in db.tables
    && (e.columns.Some? ==> Distinct(e.columns.value) && forall c :: c in e.columns.value ==> c in db.tables[e.table])
  }

  predicate Acceptable(db: Db, es: seq<Entry>) {
    && DistinctTables(es)
    && (forall i :: 0 <= i < |es| ==> AcceptableEntry(db, es[i]))
  }

  /** Running a SET TABLE text: it must read, name the existing publication, and list existing tables and
      columns once each. The publication then holds those tables and no others. */
  function Execute(db: Db, sql: string): Option<Db> {
    match ReadSetTable(sql)
    case None => None
    case Some(x) =>
      if x.0 == "zero_publication" && db.publication.Some? && Acceptable(db, x.1)
          then Some(db.(publication := Some(ShapeOf(x.1)))) else None
  }

  function CreateFor(db: Db, table: string): Option<Db> {
    if db.publication.None? && table in db.tables then Some(db.(publication := Some(map[table := None]))) else None
  }

  /** An entry is accepted for an existing table, with existing columns, each once. */
  lemma AcceptableMeans(db: Db, e: Entry)
    ensures AcceptableEntry(db, e)
            <==> && e.table in db.tables
                 && (e.columns.Some? ==>
                       forall j :: 0 <= j < |e.columns.value| ==>
                         e.columns.value[j] in db.tables[e.table] && e.columns.value[j] !in e.columns.value[..j])
  {
    if e.table in db.tables && e.columns.Some? {
      DistinctMeans(e.columns.value);
    }
  }

  lemma DistinctMeans(names: seq<string>)
    ensures Distinct(names) <==> forall j :: 0 <= j < |names| ==> names[j] !in names[..j]
  {}

  /** A list of tables is accepted if none is named twice and every entry is. */
  lemma AcceptableListMeans(db: Db, es: seq<Entry>)
    ensures Acceptable(db, es)
            <==> && (forall i, j :: 0 <= i < j < |es| ==> es[i].table != es[j].table)
                 && forall i :: 0 <= i < |es| ==>
                      && es[i].table in db.tables
                      && (es[i].columns.Some? ==>
                            var names := es[i].columns.value;
                            forall j :: 0 <= j < |names| ==>
                              names[j] in db.tables[es[i].table] && names[j] !in names[..j])
  {
    forall i | 0 <= i < |es| { AcceptableMeans(db, es[i]); }
  }

  lemma PrintedRunsIff(db: Db, es: seq<Entry>)
    requires es != [] && Printable(es)
    ensures Execute(db, SetTableSql(es)).Some? <==> db.publication.Some? && Acceptable(db, es)
  {
    SetTableReadsBack(es);
  }

  /** The server runs a printed statement exactly when the publication exists, no table is named twice, and every
      table and column exists, each column once in its list. */
  lemma ExecuteRunsIff(db: Db, es: seq<Entry>, sql: string)
    requires es != [] && Printable(es) && sql == SetTableSql(es)
    ensures Execute(db, sql).Some?
            <==> && db.publication.Some?
                 && (forall i, j :: 0 <= i < j < |es| ==> es[i].table != es[j].table)
                 && forall i :: 0 <= i < |es| ==>
                      && es[i].table in db.tables
                      && (es[i].columns.Some? ==>
                            var names := es[i].columns.value;
                            forall j :: 0 <= j < |names| ==>
                              names[j] in db.tables[es[i].table] && names[j] !in names[..j])
  {
    PrintedRunsIff(db, es);
    AcceptableListMeans(db, es);
  }

  // ---- facts about shapes ------------------------------------------------------------------

  lemma {:induction false} ShapeHas(es: seq<Entry>, t: string)
    ensures t in ShapeOf(es) <==> exists i :: 0 <= i < |es| && es[i].table == t
  {
    if es != [] {
      ShapeHas(es[1..], t);
      assert forall i :: 0 < i < |es| ==> es[i] == es[1..][i - 1];
      if t in ShapeOf(es[1..]) {
        var i :| 0 <= i < |es[1..]| && es[1..][i].table == t;
        assert es[i + 1].table == t;
      }
    }
  }

  lemma {:induction false} ShapeAt(es: seq<Entry>, i: nat)
    requires DistinctTables(es) && i < |es|
    ensures es[i].table in ShapeOf(es) && ShapeOf(es)[es[i].table] == Key(es[i].columns)
  {
    if i > 0 {
      assert es[1..][i - 1] == es[i] && es[0].table != es[i].table;
      ShapeAt(es[1..], i - 1);
    }
  }

  lemma {:induction false} ExpectedAt(db: Db, canon: Canon, es: seq<Entry>, i: nat)
    requires i < |es|
    ensures |ExpectedEntries(db, canon, es)| == |es|
    ensures ExpectedEntries(db, canon, es)[i] == Entry(es[i].table, ExpectedColumns(db, canon, es[i]))
  {
    if i > 0 {
      ExpectedAt(db, canon, es[1..], i - 1);
    } else if |es| > 1 {
      ExpectedAt(db, canon, es[1..], 0);
    }
  }

  lemma {:induction false} ExpectedDistinct(db: Db, canon: Canon, es: seq<Entry>)
    requires DistinctTables(es)
    ensures |ExpectedEntries(db, canon, es)| == |es| && DistinctTables(ExpectedEntries(db, canon, es))
  {
    if es != [] { ExpectedAt(db, canon, es, 0); }
    forall i, j | 0 <= i < j < |es|
      ensures ExpectedEntries(db, canon, es)[i].table != ExpectedEntries(db, canon, es)[j].table
    {
      ExpectedAt(db, canon, es, i);
      ExpectedAt(db, canon, es, j);
    }
  }

  /** The expected shape, table by table. */
  lemma ExpectedShapeAt(db: Db, canon: Canon, i: nat)
    requires DistinctTables(canon.entries) && i < |canon.entries|
    ensures var e := canon.entries[i];
      e.table in ExpectedShape(db, canon) && ExpectedShape(db, canon)[e.table] == Key(ExpectedColumns(db, canon, e))
  {
    ExpectedDistinct(db, canon, canon.entries);
    ExpectedAt(db, canon, canon.entries, i);
    ShapeAt(ExpectedEntries(db, canon, canon.entries), i);
  }

  lemma ExpectedShapeHas(db: Db, canon: Canon, t: string)
    requires DistinctTables(canon.entries)
    ensures t in ExpectedShape(db, canon) <==> exists i :: 0 <= i < |canon.entries| && canon.entries[i].table == t
  {
    var ex := ExpectedEntries(db, canon, canon.entries);
    ExpectedDistinct(db, canon, canon.entries);
    ShapeHas(ex, t);
    forall i | 0 <= i < |ex| ensures ex[i].table == canon.entries[i].table {
      ExpectedAt(db, canon, canon.entries, i);
    }
    if t in ExpectedShape(db, canon) {
      var i :| 0 <= i < |ex| && ex[i].table == t;
      assert canon.entries[i].table == t;
    }
  }

  // ---- the ready tables --------------------------------------------------------------------

  lemma {:induction false} ReadyFrom(db: Db, canon: Canon, es: seq<Entry>, k: nat)
    requires k < |ReadyEntries(db, canon, es)|
    ensures exists i :: 0 <= i < |es| && Ready(db, canon, es[i])
              && ReadyEntries(db, canon, es)[k] == Entry(es[i].table, ExpectedColumns(db, canon, es[i]))
  {
    var more := ReadyEntries(db, canon, es[1..]);
    if Ready(db, canon, es[0]) && k == 0 {
      assert ReadyEntries(db, canon, es)[0] == Entry(es[0].table, ExpectedColumns(db, canon, es[0]));
    } else {
      var j := if Ready(db, canon, es[0]) then k - 1 else k;
      assert ReadyEntries(db, canon, es)[k] == more[j];
      ReadyFrom(db, canon, es[1..], j);
      var i :| 0 <= i < |es[1..]| && Ready(db, canon, es[1..][i])
               && more[j] == Entry(es[1..][i].table, ExpectedColumns(db, canon, es[1..][i]));
      assert es[i + 1] == es[1..][i];
    }
  }

  lemma {:induction false} ReadyInto(db: Db, canon: Canon, es: seq<Entry>, i: nat)
    requires i < |es| && Ready(db, canon, es[i])
    ensures Entry(es[i].table, ExpectedColumns(db, canon, es[i])) in ReadyEntries(db, canon, es)
  {
    if i > 0 {
      assert es[1..][i - 1] == es[i];
      ReadyInto(db, canon, es[1..], i - 1);
    }
  }

  lemma {:induction false} ReadyDistinct(db: Db, canon: Canon, es: seq<Entry>)
    requires DistinctTables(es)
    ensures DistinctTables(ReadyEntries(db, canon, es))
  {
    if es != [] {
      var more := ReadyEntries(db, canon, es[1..]);
      ReadyDistinct(db, canon, es[1..]);
      forall k | 0 <= k < |more| ensures more[k].table != es[0].table {
        ReadyFrom(db, canon, es[1..], k);
      }
    }
  }

  lemma ReadyColumnsAreGood(db: Db, canon: Canon, e: Entry)
    requires GoodColumns(e) && Ready(db, canon, e)
    ensures AcceptableEntry(db, Entry(e.table, ExpectedColumns(db, canon, e)))
    ensures ExpectedColumns(db, canon, e).Some? ==> ExpectedColumns(db, canon, e).value != []
  {
  }

  lemma {:induction false} ReadyIsAcceptable(db: Db, canon: Canon)
    requires GoodCanon(canon)
    ensures Acceptable(db, ReadyEntries(db, canon, canon.entries)) && Printable(ReadyEntries(db, canon, canon.entries))
  {
    var es := ReadyEntries(db, canon, canon.entries);
    ReadyDistinct(db, canon, canon.entries);
    forall k | 0 <= k < |es|
      ensures AcceptableEntry(db, es[k]) && (es[k].columns.Some? ==> es[k].columns.value != [])
    {
      ReadyFrom(db, canon, canon.entries, k);
      var i :| 0 <= i < |canon.entries| && Ready(db, canon, canon.entries[i])
               && es[k] == Entry(canon.entries[i].table, ExpectedColumns(db, canon, canon.entries[i]));
      ReadyColumnsAreGood(db, canon, canon.entries[i]);
    }
  }

  lemma NoEntriesDoNotRead(prefix: string, name: string, middle: string)
    requires middle != "" && middle[0] != '"'
    ensures ReadStatement(prefix, middle, Statement(prefix, name, middle, [])) == None
  {
    var sql := Statement(prefix, name, middle, []);
    assert sql == prefix + (Quote(name) + middle);
    assert sql[|prefix|..] == Quote(name) + middle && sql[..|prefix|] == prefix;
    IdentifierReadsBack(name, middle);
    assert middle[|middle|..] == "";
  }

  /** With no table to list the printed text is not a statement at all. */
  lemma EmptyListDoesNotRead()
    ensures ReadSetTable(SetTableSql([])) == None
  {
    NoEntriesDoNotRead(PREFIX, NAME, MIDDLE);
  }

  /** The printed statement runs exactly when the publication exists and some table is ready, and it sets
      the shape restricted to the ready tables. */
  lemma {:induction false} StatementSetsReadyTables(db: Db, canon: Canon)
    requires GoodCanon(canon)
    ensures var es := ReadyEntries(db, canon, canon.entries);
      Execute(db, SetTableSql(es))
      == if db.publication.Some? && es != [] then Some(db.(publication := Some(ShapeOf(es)))) else None
  {
    var es := ReadyEntries(db, canon, canon.entries);
    if es == [] {
      EmptyListDoesNotRead();
    } else {
      ReadyIsAcceptable(db, canon);
      SetTableReadsBack(es);
    }
  }

  lemma {:induction false} SomeReadyIffListed(db: Db, canon: Canon)
    ensures SomeReady(db, canon) <==> ReadyEntries(db, canon, canon.entries) != []
  {
    if ReadyEntries(db, canon, canon.entries) != [] {
      ReadyFrom(db, canon, canon.entries, 0);
    }
    if SomeReady(db, canon) {
      var i :| 0 <= i < |canon.entries| && Ready(db, canon, canon.entries[i]);
      ReadyInto(db, canon, canon.entries, i);
    }
  }

  lemma {:induction false} AllReadyListsAll(db: Db, canon: Canon, es: seq<Entry>)
    requires forall i :: 0 <= i < |es| ==> Ready(db, canon, es[i])
    ensures ReadyEntries(db, canon, es) == ExpectedEntries(db, canon, es)
  {
    if es != [] {
      assert forall i :: 0 <= i < |es[1..]| ==> es[1..][i] == es[i + 1];
      AllReadyListsAll(db, canon, es[1..]);
    }
  }

  /** Restricting to the ready tables changes nothing exactly when every table is ready. */
  lemma ReadyShapeIsExpectedIff(db: Db, canon: Canon)
    requires DistinctTables(canon.entries)
    ensures ReadyShape(db, canon) == ExpectedShape(db, canon) <==> AllReady(db, canon)
  {
    if AllReady(db, canon) {
      AllReadyListsAll(db, canon, canon.entries);
    } else {
      var i :| 0 <= i < |canon.entries| && !Ready(db, canon, canon.entries[i]);
      ExpectedShapeAt(db, canon, i);
      UnreadyIsLeftOut(db, canon, i);
    }
  }

  lemma UnreadyIsLeftOut(db: Db, canon: Canon, i: nat)
    requires DistinctTables(canon.entries) && i < |canon.entries| && !Ready(db, canon, canon.entries[i])
    ensures canon.entries[i].table !in ReadyShape(db, canon)
  {
    var es, t := ReadyEntries(db, canon, canon.entries), canon.entries[i].table;
    ShapeHas(es, t);
    if t in ShapeOf(es) {
      var k :| 0 <= k < |es| && es[k].table == t;
      ReadyFrom(db, canon, canon.entries, k);
      assert false;
    }
  }

  /** The ready shape, table by table: exactly the ready tables, each with its expected columns. */
  lemma ReadyShapeMeans(db: Db, canon: Canon, t: string)
    requires DistinctTables(canon.entries)
    ensures t in ReadyShape(db, canon)
            <==>
            exists i ::
              0 <= i < |canon.entries| && canon.entries[i].table == t && Ready(db, canon, canon.entries[i])
    ensures forall i :: 0 <= i < |canon.entries| && canon.entries[i].table == t && t in ReadyShape(db, canon)
              ==> ReadyShape(db, canon)[t] == Key(ExpectedColumns(db, canon, canon.entries[i]))
  {
    var es := ReadyEntries(db, canon, canon.entries);
    ShapeHas(es, t);
    if t in ShapeOf(es) {
      var k :| 0 <= k < |es| && es[k].table == t;
      ReadyDistinct(db, canon, canon.entries);
      ShapeAt(es, k);
      ReadyFrom(db, canon, canon.entries, k);
    }
    forall i | 0 <= i < |canon.entries| && canon.entries[i].table == t && Ready(db, canon, canon.entries[i])
      ensures t in ReadyShape(db, canon)
    {
      ReadyInto(db, canon, canon.entries, i);
      var k :| 0 <= k < |es| && es[k] == Entry(canon.entries[i].table, ExpectedColumns(db, canon, canon.entries[i]));
      assert es[k].table == t;
    }
  }

  /** The same from the tables alone: a canonical table is published once it has columns, among them all its canonical
      ones, and then with these and, if it is to have one and does, its version column. */
  lemma PublishedColumns(db: Db, canon: Canon, i: nat)
    requires DistinctTables(canon.entries) && i < |canon.entries|
    ensures var e, shape := canon.entries[i], ReadyShape(db, canon);
            && (e.table in shape <==>
                  && e.table in db.tables && db.tables[e.table] != {}
                  && (e.columns.Some? ==> forall c :: c in e.columns.value ==> c in db.tables[e.table]))
            && (e.table in shape ==>
                  shape[e.table] == match e.columns
                                    case None => None
                                    case Some(columns) =>
                                      Some(multiset(columns)
                                           + if e.table in canon.versioned && "_0_version" in db.tables[e.table]
                                             then multiset{"_0_version"} else multiset{}))
  {
    var e := canon.entries[i];
    ReadyShapeMeans(db, canon, e.table);
    ExpectedColumnsAre(db, canon, e);
    ReadyAlone(db, canon, e);
    if e.table in ReadyShape(db, canon) {
      var k :| 0 <= k < |canon.entries| && canon.entries[k].table == e.table && Ready(db, canon, canon.entries[k]);
      assert k == i;
    }
  }

  lemma ReadyAlone(db: Db, canon: Canon, e: Entry)
    ensures Ready(db, canon, e)
            <==> && e.table in db.tables && db.tables[e.table] != {}
                 && (e.columns.Some? ==> forall c :: c in e.columns.value ==> c in db.tables[e.table])
  {
    ExpectedColumnsAre(db, canon, e);
    if e.columns.Some? {
      assert forall c :: c in ExpectedColumns(db, canon, e).value ==>
          c in e.columns.value || (c == "_0_version" && c in TableColumns(db, e.table));
      assert forall c :: c in e.columns.value ==> c in ExpectedColumns(db, canon, e).value;
    }
  }

  // ---- ensure, as a function of the database --------------------------------------------------

  /** The database once the publication exists: untouched, or seeded with one table. */
  function Seeded(db: Db): Option<Db> {
    if db.publication.Some? then Some(db) else CreateFor(db, SEED)
  }

  function Repaired(db: Db, canon: Canon): Option<Db> {
    if Canonical(db, canon) then Some(db) else Execute(db, SetTableSql(ReadyEntries(db, canon, canon.entries)))
  }

  /** What ensure leaves behind; None when the server refuses a statement. */
  function Ensured(db: Db, canon: Canon): Option<Db> {
    match Seeded(db) case None => None case Some(seeded) => Repaired(seeded, canon)
  }

  /** Ensure needs only the tables, so the ready tables are those of the database it started from. */
  lemma ReadyReadsTablesOnly(db: Db, other: Db, canon: Canon)
    requires db.tables == other.tables
    ensures forall e :: ExpectedColumns(db, canon, e) == ExpectedColumns(other, canon, e)
    ensures forall e :: Ready(db, canon, e) == Ready(other, canon, e)
    ensures ReadyShape(db, canon) == ReadyShape(other, canon) && ExpectedShape(db, canon) == ExpectedShape(other, canon)
  {
    EntriesReadTablesOnly(db, other, canon, canon.entries);
  }

  lemma {:induction false} EntriesReadTablesOnly(db: Db, other: Db, canon: Canon, es: seq<Entry>)
    requires db.tables == other.tables
    ensures ReadyEntries(db, canon, es) == ReadyEntries(other, canon, es)
    ensures ExpectedEntries(db, canon, es) == ExpectedEntries(other, canon, es)
  {
    if es != [] {
      EntriesReadTablesOnly(db, other, canon, es[1..]);
    }
  }

  lemma PublishedIsReady(db: Db, canon: Canon, i: nat)
    requires GoodDb(db) && DistinctTables(canon.entries) && Canonical(db, canon) && i < |canon.entries|
    ensures Ready(db, canon, canon.entries[i])
  {
    var e := canon.entries[i];
    ExpectedShapeAt(db, canon, i);
    assert e.table in db.publication.value && TableColumns(db, e.table) == db.tables[e.table] != {};
    if ExpectedColumns(db, canon, e).Some? {
      var columns := ExpectedColumns(db, canon, e).value;
      forall c | c in columns ensures c in TableColumns(db, e.table) {
        assert c in multiset(columns);
      }
    }
  }

  /** A publication that is already canonical has every table ready, so it is its own ready shape. */
  lemma CanonicalIsReadyShape(db: Db, canon: Canon)
    requires GoodDb(db) && DistinctTables(canon.entries) && Canonical(db, canon)
    ensures AllReady(db, canon) && db.publication == Some(ReadyShape(db, canon))
  {
    forall i | 0 <= i < |canon.entries| ensures Ready(db, canon, canon.entries[i]) {
      PublishedIsReady(db, canon, i);
    }
    ReadyShapeIsExpectedIff(db, canon);
  }

  lemma SeedIsReady(db: Db, canon: Canon)
    requires GoodDb(db) && GoodCanon(canon) && SEED in db.tables
    ensures SomeReady(db, canon)
  {
    var i :| 0 <= i < |canon.entries| && canon.entries[i] == Entry(SEED, None);
    assert Ready(db, canon, canon.entries[i]);
  }

  /** From any publication that exists, repairing leaves exactly the ready tables with their expected
      columns, and the server refuses exactly when no table is ready. */
  lemma RepairLeavesReadyShape(db: Db, canon: Canon)
    requires GoodDb(db) && GoodCanon(canon) && db.publication.Some?
    ensures Repaired(db, canon)
            == if SomeReady(db, canon) then Some(db.(publication := Some(ReadyShape(db, canon)))) else None
  {
    StatementSetsReadyTables(db, canon);
    SomeReadyIffListed(db, canon);
    if Canonical(db, canon) {
      CanonicalIsReadyShape(db, canon);
      var i :| 0 <= i < |canon.entries| && canon.entries[i] == Entry(SEED, None);
      assert Ready(db, canon, canon.entries[i]);
      assert db == db.(publication := Some(ReadyShape(db, canon)));
    }
  }

  /** Convergence, from an absent, partial or drifted publication alike: the outcome does not depend on
      what was published before. Ensure fails exactly when nothing is ready, or when the publication is
      missing and the seed table does not exist. */
  lemma EnsureConverges(db: Db, canon: Canon)
    requires GoodDb(db) && GoodCanon(canon)
    ensures Ensured(db, canon)
            == if SEED in db.tables || (db.publication.Some? && SomeReady(db, canon))
               then Some(db.(publication := Some(ReadyShape(db, canon))))
               else None
  {
    if SEED in db.tables {
      SeedIsReady(db, canon);
    }
    match Seeded(db)
    case None =>
    case Some(seeded) =>
      ReadyReadsTablesOnly(db, seeded, canon);
      assert GoodDb(seeded);
      assert SomeReady(db, canon) == SomeReady(seeded, canon);
      RepairLeavesReadyShape(seeded, canon);
  }

  lemma ReadyShapeIsGood(db: Db, canon: Canon)
    requires GoodDb(db) && DistinctTables(canon.entries)
    ensures GoodDb(db.(publication := Some(ReadyShape(db, canon))))
  {
    var shape := ReadyShape(db, canon);
    forall t | t in shape
      ensures t in db.tables && (shape[t].Some? ==> forall c :: c in shape[t].value ==> c in db.tables[t])
    {
      ReadyShapeMeans(db, canon, t);
      var i :| 0 <= i < |canon.entries| && canon.entries[i].table == t && Ready(db, canon, canon.entries[i]);
      if shape[t].Some? {
        var columns := ExpectedColumns(db, canon, canon.entries[i]).value;
        assert forall c :: c in multiset(columns) ==> c in columns;
      }
    }
  }

  /** A second ensure changes nothing, and it issues no statement (its check finds nothing) exactly when
      every canonical table is ready; otherwise every later call repeats the same statement. */
  lemma SecondEnsureIsSilentIff(db: Db, canon: Canon)
    requires GoodDb(db) && GoodCanon(canon)
    ensures forall after :: Ensured(db, canon) == Some(after) ==>
              Ensured(after, canon) == Some(after) && (Canonical(after, canon) <==> AllReady(db, canon))
  {
    if Ensured(db, canon).Some? {
      SecondEnsure(db, Ensured(db, canon).value, canon);
    }
  }

  lemma SecondEnsure(db: Db, after: Db, canon: Canon)
    requires GoodDb(db) && GoodCanon(canon) && Ensured(db, canon) == Some(after)
    ensures Ensured(after, canon) == Some(after) && (Canonical(after, canon) <==> AllReady(db, canon))
  {
    EnsureConverges(db, canon);
    ReadyShapeIsGood(db, canon);
    ReadyReadsTablesOnly(db, after, canon);
    assert SomeReady(db, canon) ==> SomeReady(after, canon);
    EnsureConverges(after, canon);
    ReadyShapeIsExpectedIff(db, canon);
    assert Canonical(after, canon) <==> ReadyShape(db, canon) == ExpectedShape(db, canon);
  }
}
