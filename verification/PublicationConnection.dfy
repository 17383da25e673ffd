/** The calls a migration or a startup makes on a database connection
    (backend/app/zero_publication.py:27-97, 166-207, 232-270). */
module PublicationConnection {
  import opened Common
  import opened Publication
  import opened PublicationRepair

  datatype Mismatch = NoPublication | Missing(table: string) | WrongColumns(table: string) | Unexpected(table: string)

  /** What each reported mismatch says about the publication and the canonical shape. */
  ghost predicate IsMismatch(db: Db, canon: Canon, m: Mismatch) {
    match m
    case NoPublication => db.publication.None?
    case Missing(t) => db.publication.Some? && t in ExpectedShape(db, canon) && t !in db.publication.value
    case WrongColumns(t) =>
      && db.publication.Some? && t in ExpectedShape(db, canon) && t in db.publication.value
      && db.publication.value[t] != ExpectedShape(db, canon)[t]
    case Unexpected(t) => db.publication.Some? && t !in ExpectedShape(db, canon) && t in db.publication.value
  }

  /** There is nothing to report exactly when the publication is canonical. */
  lemma NoMismatchIffCanonical(db: Db, canon: Canon)
    ensures (forall m :: !IsMismatch(db, canon, m)) <==> Canonical(db, canon)
  {
    if forall m :: !IsMismatch(db, canon, m) {
      assert !IsMismatch(db, canon, NoPublication);
      var actual, expected := db.publication.value, ExpectedShape(db, canon);
      forall t ensures t in actual <==> t in expected {
        assert !IsMismatch(db, canon, Missing(t)) && !IsMismatch(db, canon, Unexpected(t));
      }
      forall t | t in expected ensures actual[t] == expected[t] {
        assert !IsMismatch(db, canon, WrongColumns(t));
      }
      assert actual == expected;
    }
  }

  /** A statement sent to the server. */
  datatype Ddl = Create(table: string) | SetTable(sql: string)

  /** The comparison of one canonical table with what is published. */
  function Compare(actual: Shape, table: string, expected: Option<seq<string>>): seq<Mismatch> {
    if table !in actual then [Missing(table)]
    else if actual[table] != Key(expected) then [WrongColumns(table)]
    else []
  }

  function RepairSends(db: Db, canon: Canon): seq<Ddl> {
    if Canonical(db, canon) then [] else [SetTable(SetTableSql(ReadyEntries(db, canon, canon.entries)))]
  }

  /** The statements one ensure sends when none is refused. */
  function EnsureSends(db: Db, canon: Canon): seq<Ddl> {
    if db.publication.Some? then RepairSends(db, canon)
    else match Seeded(db) case None => [] case Some(seeded) => [Create(SEED)] + RepairSends(seeded, canon)
  }

  /** Seeding leaves the ready tables as they were, and there is at least one: the seed itself. */
  lemma SeedingKeepsReady(db: Db, seeded: Db, canon: Canon)
    requires GoodDb(db) && GoodCanon(canon) && db.publication.None? && CreateFor(db, SEED) == Some(seeded)
    ensures GoodDb(seeded) && SomeReady(seeded, canon) && ReadyShape(seeded, canon) == ReadyShape(db, canon)
    ensures EnsureSends(db, canon) == [Create(SEED)] + RepairSends(seeded, canon)
  {
    ReadyReadsTablesOnly(db, seeded, canon);
    SeedIsReady(seeded, canon);
  }

  lemma SeedMakesReady(db: Db, canon: Canon)
    requires GoodDb(db) && GoodCanon(canon)
    ensures SEED in db.tables ==> SomeReady(db, canon)
  {
    if SEED in db.tables {
      SeedIsReady(db, canon);
    }
  }

  class Connection {
    var db: Db
    var sent: seq<Ddl>

    constructor (database: Db)
      ensures db == database && sent == []
    {
      db, sent := database, [];
    }

    method CreatePublication(table: string) returns (ok: bool)
      modifies this
      ensures ok == CreateFor(old(db), table).Some?
      ensures ok ==> Some(db) == CreateFor(old(db), table) && sent == old(sent) + [Create(table)]
      ensures !ok ==> db == old(db) && sent == old(sent)
    {
      var after := CreateFor(db, table);
      ok := after.Some?;
      if ok {
        db, sent := after.value, sent + [Create(table)];
      }
    }

    method RunSetTable(sql: string) returns (ok: bool)
      modifies this
      ensures ok == Execute(old(db), sql).Some?
      ensures ok ==> Some(db) == Execute(old(db), sql) && sent == old(sent) + [SetTable(sql)]
      ensures !ok ==> db == old(db) && sent == old(sent)
    {
      var after := Execute(db, sql);
      ok := after.Some?;
      if ok {
        db, sent := after.value, sent + [SetTable(sql)];
      }
    }

    /** The report holds every mismatch and nothing else, so it is empty exactly for the canonical shape. */
    method VerifyPublication(canon: Canon) returns (report: seq<Mismatch>)
      requires DistinctTables(canon.entries)
      ensures forall m :: m in report <==> IsMismatch(db, canon, m)
      ensures report == [] <==> Canonical(db, canon)
    {
      NoMismatchIffCanonical(db, canon);
      if db.publication.None? {
        report := [NoPublication];
        return;
      }
      var actual := db.publication.value;
      report := [];
      for i := 0 to |canon.entries|
        invariant forall m :: m in report <==>
          exists k :: 0 <= k < i && m in Compare(actual, canon.entries[k].table, ExpectedColumns(db, canon,
              canon.entries[k]))
      {
        var e := canon.entries[i];
        report := report + Compare(actual, e.table, ExpectedColumns(db, canon, e));
      }
      ghost var canonical := report;
      CanonicalPart(db, canon, canonical);
      var expected := set i | 0 <= i < |canon.entries| :: canon.entries[i].table;
      var rest := actual.Keys - expected;
      ghost var unexpected := rest;
      while rest != {}
        invariant rest <= unexpected
        invariant forall m :: m in report <==> m in canonical || (m.Unexpected? && m.table in unexpected - rest)
      {
        var t :| t in rest;
        report := report + [Unexpected(t)];
        rest := rest - {t};
      }
      forall m ensures m in report <==> IsMismatch(db, canon, m) {
        if m.Unexpected? {
          ExpectedShapeHas(db, canon, m.table);
        }
      }
      if report != [] {
        assert report[0] in report;
      }
    }

    /** The migration entry point: it does nothing while there is no publication. */
    method ApplyPublication(canon: Canon) returns (ok: bool)
      requires GoodCanon(canon)
      modifies this
      ensures ok <==> old(db).publication.None? || SomeReady(old(db), canon)
      ensures old(db).publication.None? || !ok ==> db == old(db) && sent == old(sent)
      ensures old(db).publication.Some? && ok ==>
                && db == old(db).(publication := Some(ReadyShape(old(db), canon)))
                && sent == old(sent) + [SetTable(SetTableSql(ReadyEntries(old(db), canon, canon.entries)))]
    {
      if db.publication.None? {
        ok := true;
        return;
      }
      StatementSetsReadyTables(db, canon);
      SomeReadyIffListed(db, canon);
      var sql := BuildSetTableSql(db, canon);
      ok := RunSetTable(sql);
    }

    /** The second half of ensure: check, and set the tables if anything is reported. */
    method Repair(canon: Canon) returns (ok: bool)
      requires GoodDb(db) && GoodCanon(canon) && db.publication.Some?
      modifies this
      ensures ok <==> SomeReady(old(db), canon)
      ensures ok ==> db == old(db).(publication := Some(ReadyShape(old(db), canon)))
      ensures ok ==> sent == old(sent) + RepairSends(old(db), canon)
      ensures !ok ==> db == old(db) && sent == old(sent)
    {
      RepairLeavesReadyShape(db, canon);
      var report := VerifyPublication(canon);
      ok := true;
      if report != [] {
        var sql := BuildSetTableSql(db, canon);
        ok := RunSetTable(sql);
      }
    }

    /** The startup entry point. */
    method EnsurePublication(canon: Canon) returns (ok: bool)
      requires GoodDb(db) && GoodCanon(canon)
      modifies this
      ensures ok <==> SEED in old(db).tables || (old(db).publication.Some? && SomeReady(old(db), canon))
      ensures ok ==> db == old(db).(publication := Some(ReadyShape(old(db), canon)))
      ensures ok ==> sent == old(sent) + EnsureSends(old(db), canon)
      ensures !ok ==> db == old(db) && sent == old(sent)
    {
      if db.publication.Some? {
        SeedMakesReady(db, canon);
        ok := Repair(canon);
      } else {
        ok := CreatePublication(SEED);
        if ok {
          SeedingKeepsReady(old(db), db, canon);
          ghost var seeded := db;
          ok := Repair(canon);
          assert sent == (old(sent) + [Create(SEED)]) + RepairSends(seeded, canon);
        }
      }
    }
  }

  lemma CanonicalPart(db: Db, canon: Canon, report: seq<Mismatch>)
    requires db.publication.Some? && DistinctTables(canon.entries)
    requires forall m :: m in report <==>
      exists k :: 0 <= k < |canon.entries|
        && m in Compare(db.publication.value, canon.entries[k].table, ExpectedColumns(db, canon, canon.entries[k]))
    ensures forall m :: m in report <==> !m.Unexpected? && IsMismatch(db, canon, m)
  {
    var actual, expected := db.publication.value, ExpectedShape(db, canon);
    forall m ensures m in report <==> !m.Unexpected? && IsMismatch(db, canon, m) {
      if m in report {
        var k :| 0 <= k < |canon.entries|
          && m in Compare(actual, canon.entries[k].table, ExpectedColumns(db, canon, canon.entries[k]));
        ExpectedShapeAt(db, canon, k);
      }
      if !m.Unexpected? && IsMismatch(db, canon, m) {
        ExpectedShapeHas(db, canon, m.table);
        var k :| 0 <= k < |canon.entries| && canon.entries[k].table == m.table;
        ExpectedShapeAt(db, canon, k);
        assert m in Compare(actual, canon.entries[k].table, ExpectedColumns(db, canon, canon.entries[k]));
      }
    }
  }

  /** Calling ensure on its own result sends nothing exactly when every canonical table is ready. */
  lemma SecondEnsureSendsNothingIff(db: Db, canon: Canon)
    requires GoodDb(db) && GoodCanon(canon)
    ensures forall after :: Ensured(db, canon) == Some(after) ==>
              (EnsureSends(after, canon) == [] <==> AllReady(db, canon))
  {
    SecondEnsureIsSilentIff(db, canon);
    EnsureConverges(db, canon);
  }

  // ---- the shipped definition ------------------------------------------------------------------

  const DOCUMENT_COLS := ["id", "title", "document_type", "workspace_id", "folder_id", "created_by_id", "status",
                          "created_at", "updated_at"]
  const USER_COLS := ["id", "credit_micros_balance"]
  const AUTOMATION_RUN_COLS := ["id", "automation_id", "trigger_id", "status", "step_results", "started_at",
                                "finished_at", "created_at"]
  const AUTOMATION_COLS := ["id", "workspace_id"]
  const NEW_CHAT_THREAD_COLS := ["id", "workspace_id"]
  const PODCAST_COLS := ["id", "title", "status", "spec", "spec_version", "duration_seconds", "error",
                         "workspace_id", "thread_id", "created_at"]

  const ZERO_PUBLICATION := Canon(
    [ Entry("notifications", None),
      Entry("documents", Some(DOCUMENT_COLS)),
      Entry("folders", None),
      Entry("search_source_connectors", None),
      Entry("new_chat_threads", Some(NEW_CHAT_THREAD_COLS)),
      Entry("new_chat_messages", None),
      Entry("chat_comments", None),
      Entry("chat_session_state", None),
      Entry("user", Some(USER_COLS)),
      Entry("automations", Some(AUTOMATION_COLS)),
      Entry("automation_runs", Some(AUTOMATION_RUN_COLS)),
      Entry("podcasts", Some(PODCAST_COLS)) ],
    {"documents", "user", "podcasts"})

  /** Names with different lengths or first characters are different. */
  lemma TagsTellApart(names: seq<string>, tags: seq<(nat, char)>)
    requires |names| == |tags|
    requires forall i :: 0 <= i < |names| ==>
               names[i] != "" && (|names[i]|, names[i][0]) == tags[i] && names[i][0] != '_'
    requires forall i, j :: 0 <= i < j < |tags| ==> tags[i] != tags[j]
    ensures Distinct(names) && VERSION_COLUMN !in names
  {
  }

  lemma LongListsAreGood()
    ensures Distinct(DOCUMENT_COLS) && VERSION_COLUMN !in DOCUMENT_COLS
    ensures Distinct(PODCAST_COLS) && VERSION_COLUMN !in PODCAST_COLS
  {
    TagsTellApart(DOCUMENT_COLS,
      [(2, 'i'), (5, 't'), (13, 'd'), (12, 'w'), (9, 'f'), (13, 'c'), (6, 's'), (10, 'c'), (10, 'u')]);
    TagsTellApart(PODCAST_COLS,
      [(2, 'i'), (5, 't'), (6, 's'), (4, 's'), (12, 's'), (16, 'd'), (5, 'e'), (12, 'w'), (9, 't'), (10, 'c')]);
  }

  lemma ShortListsAreGood()
    ensures Distinct(AUTOMATION_RUN_COLS) && VERSION_COLUMN !in AUTOMATION_RUN_COLS
    ensures Distinct(USER_COLS) && VERSION_COLUMN !in USER_COLS
    ensures Distinct(AUTOMATION_COLS) && VERSION_COLUMN !in AUTOMATION_COLS
  {
    TagsTellApart(AUTOMATION_RUN_COLS,
      [(2, 'i'), (13, 'a'), (10, 't'), (6, 's'), (12, 's'), (10, 's'), (11, 'f'), (10, 'c')]);
    TagsTellApart(USER_COLS, [(2, 'i'), (21, 'c')]);
    TagsTellApart(AUTOMATION_COLS, [(2, 'i'), (12, 'w')]);
  }

  lemma ShippedColumnsAreGood()
    ensures forall i :: 0 <= i < |ZERO_PUBLICATION.entries| ==> GoodColumns(ZERO_PUBLICATION.entries[i])
  {
    LongListsAreGood();
    ShortListsAreGood();
  }

  lemma ShippedTablesAreDistinct()
    ensures DistinctTables(ZERO_PUBLICATION.entries)
  {
    var es := ZERO_PUBLICATION.entries;
    var tables := seq(|es|, i requires 0 <= i < |es| => es[i].table);
    TagsTellApart(tables,
      [(13, 'n'), (9, 'd'), (7, 'f'), (24, 's'), (16, 'n'), (17, 'n'), (13, 'c'), (18, 'c'), (4, 'u'), (11, 'a'),
       (15, 'a'), (8, 'p')]);
    forall i, j | 0 <= i < j < |es| ensures es[i].table != es[j].table {
      assert tables[i] != tables[j];
    }
  }

  /** The shipped definition meets what the theorems ask of a definition. */
  lemma ShippedDefinitionIsGood()
    ensures GoodCanon(ZERO_PUBLICATION)
  {
    ShippedTablesAreDistinct();
    ShippedColumnsAreGood();
    assert ZERO_PUBLICATION.entries[0] == Entry(SEED, None);
  }
}
