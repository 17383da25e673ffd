/** The server's note rows and the three handlers the plugin calls, with their skipped cases
    (backend/app/services/obsidian_plugin_indexer.py,
    backend/app/indexing_pipeline/indexing_pipeline_service.py). */
module NoteStore {
  import opened Common
  import opened QueueItems
  import opened Batches
  import opened SyncStates

  /** A row: what the plugin last sent, the soft-delete mark, the indexed text, and whether the
      indexing finished. */
  datatype Row = Row(note: Note, deleted: bool, doc: string, ready: bool)

  type Rows = map<Path, Row>

  /** The notes the manifest shows. */
  function Live(rows: Rows): map<Path, Note> {
    map p | p in rows && !rows[p].deleted :: rows[p].note
  }

  // ---- rename --------------------------------------------------------------------

  function RenameNote(rows: Rows, o: Path, n: Path): Rows {
    if o !in rows then rows
    else if n in rows && n != o then rows
    else (rows - {o})[n := rows[o]]
  }

  /** A rename leaves the old path live exactly when the new path already has a row, even one that
      was soft-deleted; the request is answered as a success all the same. */
  lemma RenameLeavesOldPathIff(rows: Rows, o: Path, n: Path)
    ensures o in Live(RenameNote(rows, o, n)) <==> o in Live(rows) && n in rows
  {}

  /** A rename onto a free name moves the row as it is and touches no other; onto a name with a row of its own, or
      from one without, it changes nothing. */
  lemma RenameMovesRow(rows: Rows, o: Path, n: Path, q: Path)
    ensures var after := RenameNote(rows, o, n);
            if o in rows && n !in rows then
              if q == n then q in after && after[q] == rows[o]
              else if q == o then q !in after
              else (q in after <==> q in rows) && (q in rows ==> after[q] == rows[q])
            else (q in after <==> q in rows) && (q in rows ==> after[q] == rows[q])
  {}

  /** What a rename was for the step system: skipped exactly on a collision. */
  function RenameEffect(rows: Rows, o: Path, n: Path): Effect {
    var after := Live(RenameNote(rows, o, n));
    if Collides(rows, o, n) then Skipped else Done(if n in after then Some(after[n]) else None)
  }

  /** A live note is to be renamed onto a path that has a row of its own. */
  predicate Collides(rows: Rows, o: Path, n: Path) {
    o in Live(rows) && n in rows && n != o
  }

  lemma RenameRefines(rows: Rows, o: Path, n: Path)
    ensures Live(RenameNote(rows, o, n)) == HardEffect(Live(rows), Rename(o, n), RenameEffect(rows, o, n))
    ensures RenameEffect(rows, o, n) == Skipped <==> o in rows && !rows[o].deleted && n in rows && n != o
  {
    assert Live(RenameNote(rows, o, n)) == HardEffect(Live(rows), Rename(o, n), RenameEffect(rows, o, n));
  }

  /** The rename request: the handler's loop over the batch. */
  function RenameAll(rows: Rows, items: seq<Item>): Rows {
    if items == [] then rows
    else
      var op, before := items[|items| - 1].op, RenameAll(rows, items[..|items| - 1]);
      if op.Rename? then RenameNote(before, op.oldPath, op.newPath) else before
  }

  function RenameEffects(rows: Rows, items: seq<Item>): (r: seq<Effect>)
    ensures |r| == |items|
  {
    if items == [] then []
    else
      var op, init := items[|items| - 1].op, items[..|items| - 1];
      RenameEffects(rows, init)
      + [if op.Rename? then RenameEffect(RenameAll(rows, init), op.oldPath, op.newPath) else Done(None)]
  }

  lemma {:induction false} RenameEffectAt(rows: Rows, items: seq<Item>, i: nat)
    requires i < |items| && items[i].op.Rename?
    ensures RenameEffects(rows, items)[i]
            == RenameEffect(RenameAll(rows, items[..i]), items[i].op.oldPath, items[i].op.newPath)
  {
    var init := items[..|items| - 1];
    if i < |init| {
      assert init[..i] == items[..i] && init[i] == items[i];
      RenameEffectAt(rows, init, i);
    }
  }

  lemma {:induction false} RenamesLive(rows: Rows, items: seq<Item>)
    requires forall x :: x in items ==> x.op.Rename?
    ensures forall x :: x in items ==> !x.op.Upsert?
    ensures Live(RenameAll(rows, items)) == HardEffects(Live(rows), items, RenameEffects(rows, items))
  {
    if items != [] {
      var n := |items| - 1;
      var init, op := items[..n], items[n].op;
      assert items[n] in items;
      RenamesLive(rows, init);
      RenameRefines(RenameAll(rows, init), op.oldPath, op.newPath);
      assert RenameEffects(rows, items)[..n] == RenameEffects(rows, init);
    }
  }

  /** A whole rename request is an outcome of the step system's rename step, in which no operation fails
      and those are skipped that collide when their turn comes. */
  lemma {:induction false} RenamesRefine(rows: Rows, items: seq<Item>)
    requires forall x :: x in items ==> x.op.Rename?
    ensures forall x :: x in items ==> !x.op.Upsert?
    ensures Plausible(items, RenameEffects(rows, items), Answered({}))
    ensures Live(RenameAll(rows, items)) == HardEffects(Live(rows), items, RenameEffects(rows, items))
    ensures forall i :: 0 <= i < |items| ==>
              && items[i].op.Rename?
              && (RenameEffects(rows, items)[i] == Skipped
                  <==> Collides(RenameAll(rows, items[..i]), items[i].op.oldPath, items[i].op.newPath))
  {
    RenamesLive(rows, items);
    forall i | 0 <= i < |items|
      ensures items[i].op.Rename?
      ensures RenameEffects(rows, items)[i]
              == RenameEffect(RenameAll(rows, items[..i]), items[i].op.oldPath, items[i].op.newPath)
    {
      assert items[i] in items;
      RenameEffectAt(rows, items, i);
    }
  }

  // ---- delete --------------------------------------------------------------------

  function DeleteNote(rows: Rows, p: Path): Rows {
    if p in rows then rows[p := rows[p].(deleted := true)] else rows
  }

  lemma DeleteRefines(rows: Rows, p: Path)
    ensures Live(DeleteNote(rows, p)) == HardEffect(Live(rows), Delete(p), Done(None))
  {
    assert Live(DeleteNote(rows, p)) == Live(rows) - {p};
  }

  /** The delete request: the handler's loop over the batch. */
  function DeleteAll(rows: Rows, items: seq<Item>): Rows {
    if items == [] then rows
    else
      var op, before := items[|items| - 1].op, DeleteAll(rows, items[..|items| - 1]);
      if op.Delete? then DeleteNote(before, op.path) else before
  }

  /** A whole delete request is an outcome of the step system's delete step: every delete carried out. */
  lemma {:induction false} DeletesRefine(rows: Rows, items: seq<Item>)
    requires forall x :: x in items ==> x.op.Delete?
    ensures forall x :: x in items ==> !x.op.Upsert?
    ensures var effects := seq(|items|, _ => Done(None));
            && Plausible(items, effects, Answered({}))
            && Live(DeleteAll(rows, items)) == HardEffects(Live(rows), items, effects)
  {
    if items != [] {
      var n := |items| - 1;
      assert items[n] in items;
      DeletesRefine(rows, items[..n]);
      DeleteRefines(DeleteAll(rows, items[..n]), items[n].op.path);
      assert seq(|items|, _ => Done(None))[..n] == seq(|items[..n]|, _ => Done(None));
    }
  }

  // ---- upsert ----------------------------------------------------------------------

  /** Another document, of this vault or any other source, has this text. */
  ghost predicate Duplicate(rows: Rows, p: Path, doc: string, others: set<string>) {
    doc in others || exists q :: q in rows && q != p && rows[q].doc == doc
  }

  /** Upserting note `f` with indexed text `doc`; `indexed` says whether indexing succeeded. The flag
      returned is false when the handler reports an error. */
  ghost function UpsertNote(rows: Rows, p: Path, f: Note, doc: string, others: set<string>,
        indexed: bool): (Rows, bool) {
    if p in rows && !rows[p].deleted && rows[p].note.content == f.content && rows[p].ready then (rows, true)
    else if p in rows then
      if rows[p].doc == doc then (rows[p := rows[p].(ready := rows[p].ready || indexed)], true)
      else if Duplicate(rows, p, doc, others) then (rows, true)
      else (rows[p := Row(f, false, doc, indexed)], true)
    else if Duplicate(rows, p, doc, others) then (rows, false)
    else (rows[p := Row(f, false, doc, indexed)], true)
  }

  /** After an upsert the server shows the sent content exactly when it already did, or when the text
      is new to the row and to every other document. So a deleted note restored with its old text
      stays deleted, although the upsert is answered as a success. */
  lemma UpsertTakesEffectIff(rows: Rows, p: Path, f: Note, doc: string, others: set<string>, indexed: bool)
    ensures var (after, ok) := UpsertNote(rows, p, f, doc, others, indexed);
            (p in Live(after) && Live(after)[p].content == f.content)
            <==> || (p in Live(rows) && Live(rows)[p].content == f.content)
                 || (doc !in others && forall q :: q in rows ==> rows[q].doc != doc)
  {}

  lemma UpsertChangesRow(rows: Rows, p: Path, f: Note, doc: string, others: set<string>, indexed: bool)
    ensures var after := UpsertNote(rows, p, f, doc, others, indexed).0;
            Live(after) == Live(rows) || after == rows[p := Row(f, false, doc, indexed)]
  {
    var after := UpsertNote(rows, p, f, doc, others, indexed).0;
    if p in rows && after == rows[p := rows[p].(ready := rows[p].ready || indexed)] {
      assert Live(after) == Live(rows);
    }
  }

  /** What the live row holds after an upsert that takes effect: the note as sent, or, where the content was live
      already, the row as it was, with its old time stamp and size; no other note changes. A row with this text is
      ready once it has been indexed, now or before. */
  lemma UpsertStores(rows: Rows, p: Path, f: Note, doc: string, others: set<string>, indexed: bool, q: Path)
    ensures var (after, ok) := UpsertNote(rows, p, f, doc, others, indexed);
            && (q != p ==>
                  (q in Live(after) <==> q in Live(rows)) && (q in Live(rows) ==> Live(after)[q] == Live(rows)[q]))
            && (ok <==> !(p !in rows && Duplicate(rows, p, doc, others)))
            && (p in Live(after) ==>
                  || Live(after)[p] == f
                  || (p in Live(rows) && Live(after)[p] == Live(rows)[p]))
            && (p in Live(rows) && Live(rows)[p].content == f.content && rows[p].ready ==> after == rows)
            && (p in after && after[p].doc == doc ==>
                  (after[p].ready <==> indexed || (p in rows && rows[p].doc == doc && rows[p].ready)))
  {
    UpsertChangesRow(rows, p, f, doc, others, indexed);
  }

  lemma RestoredNoteStaysDeleted(rows: Rows, p: Path, f: Note, others: set<string>, indexed: bool)
    requires p in rows && !rows[p].deleted
    ensures var deleted := DeleteNote(rows, p);
            var (after, ok) := UpsertNote(deleted, p, f, rows[p].doc, others, indexed);
            ok && p !in Live(after)
  {}

  /** What an upsert was for the step system: the stored row when the sent content is live afterwards,
      and skipped otherwise. */
  ghost function UpsertEffect(rows: Rows, p: Path, f: Note, doc: string, others: set<string>, indexed: bool): Effect {
    var after := Live(UpsertNote(rows, p, f, doc, others, indexed).0);
    if p in after && after[p].content == f.content then Done(Some(after[p])) else Skipped
  }

  /** Every upsert is an outcome of the step system: it is skipped exactly when the sent content is not
      live afterwards, and an upsert that changes nothing because the content was live is not. */
  lemma UpsertRefines(rows: Rows, p: Path, f: Note, doc: string, others: set<string>, indexed: bool)
    ensures var (after, e) := (UpsertNote(rows, p, f, doc, others, indexed).0,
                               UpsertEffect(rows, p, f, doc, others, indexed));
            && Live(after) == SyncEffect(Live(rows), map[p := e])
            && (e == Skipped <==> !(p in Live(after) && Live(after)[p].content == f.content))
            && (e == Skipped || (e.Done? && e.note.Some? && e.note.value.content == f.content))
  {
    var after, e := UpsertNote(rows, p, f, doc, others, indexed).0, UpsertEffect(rows, p, f, doc, others, indexed);
    UpsertChangesRow(rows, p, f, doc, others, indexed);
    if Live(after) == Live(rows) {
      assert Live(after) == SyncEffect(Live(rows), map[p := e]);
    } else {
      assert Live(after) == Live(rows)[p := f];
      assert Live(after) == SyncEffect(Live(rows), map[p := e]);
    }
  }

  /** A note of a request: its path, what is sent, its indexed text, and whether indexing succeeds. */
  datatype Sent = Sent(path: Path, note: Note, doc: string, indexed: bool)

  /** The note request: the handler's loop over the payloads. */
  ghost function UpsertAll(rows: Rows, notes: seq<Sent>, others: set<string>): Rows {
    if notes == [] then rows
    else
      var x := notes[|notes| - 1];
      UpsertNote(UpsertAll(rows, notes[..|notes| - 1], others), x.path, x.note, x.doc, others, x.indexed).0
  }

  lemma {:induction false} UpsertAllElsewhere(rows: Rows, notes: seq<Sent>, others: set<string>, q: Path)
    requires forall i :: 0 <= i < |notes| ==> notes[i].path != q
    ensures q in Live(UpsertAll(rows, notes, others)) <==> q in Live(rows)
    ensures q in Live(rows) ==> Live(UpsertAll(rows, notes, others))[q] == Live(rows)[q]
  {
    if notes != [] {
      UpsertAllElsewhere(rows, notes[..|notes| - 1], others, q);
    }
  }

  /** The payloads of the request: of a path that is sent twice, the later one. */
  function LastSent(notes: seq<Sent>): map<Path, Note> {
    if notes == [] then map[] else LastSent(notes[..|notes| - 1])[notes[|notes| - 1].path := notes[|notes| - 1].note]
  }

  /** What the request was for the step system: stored where the note sent last is live afterwards. */
  ghost function UpsertEffects(rows: Rows, notes: seq<Sent>, others: set<string>): map<Path, Effect> {
    var after := Live(UpsertAll(rows, notes, others));
    map p | p in LastSent(notes) ::
      if p in after && after[p].content == LastSent(notes)[p].content then Done(Some(after[p]))
      else Partial(if p in after then Some(after[p]) else None, None)
  }

  lemma {:induction false} LastSentKeys(notes: seq<Sent>)
    ensures forall p :: p in LastSent(notes) <==> exists i :: 0 <= i < |notes| && notes[i].path == p
  {
    if notes != [] {
      var n := |notes| - 1;
      LastSentKeys(notes[..n]);
      assert forall i :: 0 <= i < n ==> notes[..n][i] == notes[i];
      forall p ensures p in LastSent(notes) <==> exists i :: 0 <= i < |notes| && notes[i].path == p {
        if p in LastSent(notes[..n]) {
          var i :| 0 <= i < n && notes[..n][i].path == p;
          assert notes[i].path == p;
        }
        if p == notes[n].path {
          assert p in LastSent(notes);
        }
      }
    }
  }

  lemma EffectsGive(server: map<Path, Note>, effects: map<Path, Effect>, after: map<Path, Note>)
    requires forall q :: AfterSync(server, effects, q) == if q in after then Some(after[q]) else None
    ensures SyncEffect(server, effects) == after
  {
    forall q ensures q in SyncEffect(server, effects) <==> q in after {
      assert AfterSync(server, effects, q) == if q in after then Some(after[q]) else None;
    }
  }

  /** A whole note request, even one that sends a path twice, is an outcome of the step system's note step:
      only the paths sent are touched, and a note counts as stored exactly when the content sent last is
      live afterwards. */
  lemma {:induction false} UpsertsRefine(rows: Rows, notes: seq<Sent>, others: set<string>)
    ensures var effects, after := UpsertEffects(rows, notes, others), Live(UpsertAll(rows, notes, others));
            && after == SyncEffect(Live(rows), effects)
            && effects.Keys == LastSent(notes).Keys
            && forall p :: p in effects ==>
                 ((effects[p].Done? && effects[p].note.Some?
                   && effects[p].note.value.content == LastSent(notes)[p].content)
                  <==> (p in after && after[p].content == LastSent(notes)[p].content))
  {
    var effects, after := UpsertEffects(rows, notes, others), Live(UpsertAll(rows, notes, others));
    LastSentKeys(notes);
    forall q ensures AfterSync(Live(rows), effects, q) == if q in after then Some(after[q]) else None {
      if q !in effects {
        UpsertAllElsewhere(rows, notes, others, q);
      }
    }
    EffectsGive(Live(rows), effects, after);
  }
}
