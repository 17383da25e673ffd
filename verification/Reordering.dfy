/** Draining in batches, each batch as renames, then deletes, then upserts, means the same as running
    the queue in its order. */
module Reordering {
  import opened Common
  import opened QueueItems
  import opened Batches
  import opened SyncStates
  import opened SyncSafety
  import opened SyncRequests
  import opened SyncTheorem

  function NoteOf(f: File): Note {
    Note(f.content, f.mtime, Some(f.size))
  }

  /** The row after an upsert: a live row with the same content is returned as it is. */
  function Stored(server: map<Path, Note>, p: Path, f: File): Note {
    if p in server && server[p].content == f.content then server[p] else NoteOf(f)
  }

  /** The server's row, if any. */
  function NoteAt(server: map<Path, Note>, p: Path): Option<Note> {
    if p in server then Some(server[p]) else None
  }

  /** One operation carried out; an upsert sends what the vault holds, if anything. */
  function RunOp(server: map<Path, Note>, op: Op, vault: map<Path, File>): map<Path, Note> {
    match op
    case Rename(o, n) => if o in server then Store(Store(server, o, None), n, Some(server[o])) else server
    case Delete(p) => server - {p}
    case Upsert(p) => if p in vault then server[p := Stored(server, p, vault[p])] else server
  }

  function RunInOrder(server: map<Path, Note>, items: seq<Item>, vault: map<Path, File>): map<Path, Note> {
    if items == [] then server
    else RunOp(RunInOrder(server, items[..|items| - 1], vault), items[|items| - 1].op, vault)
  }

  function Phased(batch: seq<Item>): seq<Item> {
    OfKind(batch, Renames) + OfKind(batch, Deletes) + OfKind(batch, Upserts)
  }

  /** The whole queue, drained batch by batch without errors. */
  function DrainPhased(server: map<Path, Note>, items: seq<Item>, vault: map<Path, File>, size: nat): map<Path, Note>
    requires size > 0
    decreases |items|
  {
    if items == [] then server
    else
      var k := Min(size, |items|);
      DrainPhased(RunInOrder(server, Phased(items[..k]), vault), items[k..], vault, size)
  }

  lemma {:induction false} RunConcat(server: map<Path, Note>, a: seq<Item>, b: seq<Item>, vault: map<Path, File>)
    ensures RunInOrder(server, a + b, vault) == RunInOrder(RunInOrder(server, a, vault), b, vault)
  {
    if b == [] {
      assert a + b == a;
    } else {
      assert (a + b)[..|a + b| - 1] == a + b[..|b| - 1];
      RunConcat(server, a, b[..|b| - 1], vault);
    }
  }

  /** What a run does to one path is decided by the last operation that touches it. */
  lemma {:induction false} Fate(server: map<Path, Note>, items: seq<Item>, vault: map<Path, File>, p: Path)
    ensures var after := RunInOrder(server, items, vault);
            && (Last(items, p, false).None? ==> Copy(after, p) == Copy(server, p))
            && (Last(items, p, false) == Some(Upsert(p)) && p in vault ==> Copy(after, p) == Some(vault[p].content))
            && (Last(items, p, false).Some? && Removes(Last(items, p, false).value, p) ==> Copy(after, p).None?)
  {
    if items != [] && !Touches(items[|items| - 1].op, p, false) {
      Fate(server, items[..|items| - 1], vault, p);
    }
  }

  /** Upserts of a path that is not in the vault do nothing. */
  lemma {:induction false} FateOfAbsent(server: map<Path, Note>, items: seq<Item>, vault: map<Path, File>, p: Path)
    requires p !in vault
    ensures var after := RunInOrder(server, items, vault);
            && (Last(items, p, true).None? ==> Copy(after, p) == Copy(server, p))
            && (Last(items, p, true).Some? && Removes(Last(items, p, true).value, p) ==> Copy(after, p).None?)
  {
    if items != [] && !Touches(items[|items| - 1].op, p, true) {
      FateOfAbsent(server, items[..|items| - 1], vault, p);
    }
  }

  lemma {:induction false} NoUpsertOf(c: Config, items: seq<Item>, p: Path)
    requires UpsertsSynced(c, items) && !c.Synced(p)
    ensures Last(items, p, false) == Last(items, p, true)
  {
    NoUpsertIn(items, p);
  }

  lemma {:induction false} NoUpsertIn(items: seq<Item>, p: Path)
    requires forall x :: x in items ==> x.op != Upsert(p)
    ensures Last(items, p, false) == Last(items, p, true)
  {
    if items != [] {
      assert items[|items| - 1] in items;
      NoUpsertIn(items[..|items| - 1], p);
    }
  }

  /** A settled path ends as it should when the operations run in order. */
  lemma {:induction false} SettledRuns(c: Config, server: map<Path, Note>, items: seq<Item>, vault: map<Path, File>,
        p: Path)
    requires UpsertsSynced(c, items) && Settled(c, vault, {}, items, p, Copy(server, p))
    ensures Copy(RunInOrder(server, items, vault), p) == Want(c, vault, p)
  {
    Fate(server, items, vault, p);
    if p !in vault {
      FateOfAbsent(server, items, vault, p);
    } else if !c.Synced(p) {
      NoUpsertOf(c, items, p);
    }
  }

  /** Running the first batch in phases leaves the path settled by the rest of the queue. */
  lemma {:induction false} SettledAfterBatch(c: Config, server: map<Path, Note>, batch: seq<Item>, rest: seq<Item>,
        vault: map<Path, File>, p: Path)
    requires UpsertsSynced(c, batch) && UpsertsSynced(c, rest)
    requires Settled(c, vault, {}, batch + rest, p, Copy(server, p))
    ensures Settled(c, vault, {}, rest, p, Copy(RunInOrder(server, Phased(batch), vault), p))
  {
    var ph := Phased(batch);
    PhasedSettled(c, batch, rest, vault, p, Copy(server, p));
    PhasedSynced(c, batch);
    ViewConcat(ph, rest, p);
    LastNone(rest, p, true);
    LastNone(rest, p, false);
    LastKind(rest, p, true);
    if Last(rest, p, false).None? || (Want(c, vault, p).None? && Last(rest, p, true).None?) {
      SettledRuns(c, server, ph, vault, p);
    }
  }

  lemma PhasedSettled(c: Config, batch: seq<Item>, rest: seq<Item>, vault: map<Path, File>, p: Path,
        copy: Option<Content>)
    requires Settled(c, vault, {}, batch + rest, p, copy)
    ensures Settled(c, vault, {}, Phased(batch) + rest, p, copy)
  {
    var rs, ns, ds, us := OfKind(batch, Renames), NotOfKind(batch, Renames), OfKind(batch, Deletes),
        OfKind(batch, Upserts);
    RenamesFirst(c, vault, {}, batch, rest, p, copy);
    assert rs + (ns + rest) == (rs + ns) + rest;
    DeletesFirst(c, vault, {}, rs, batch, rest, p, copy);
    assert (rs + ds) + (us + rest) == Phased(batch) + rest;
  }

  lemma PhasedSynced(c: Config, batch: seq<Item>)
    requires UpsertsSynced(c, batch)
    ensures UpsertsSynced(c, Phased(batch))
  {
    KindItems(batch, Renames);
    KindItems(batch, Deletes);
    KindItems(batch, Upserts);
  }

  /** Every settled path ends as it should when the queue is drained in phased batches. */
  lemma {:induction false} SettledDrains(c: Config, server: map<Path, Note>, items: seq<Item>, vault: map<Path,
        File>, size: nat, p: Path)
    requires size > 0 && UpsertsSynced(c, items) && Settled(c, vault, {}, items, p, Copy(server, p))
    ensures Copy(DrainPhased(server, items, vault, size), p) == Want(c, vault, p)
    decreases |items|
  {
    if items != [] {
      var k := Min(size, |items|);
      assert items == items[..k] + items[k..];
      SettledAfterBatch(c, server, items[..k], items[k..], vault, p);
      SettledDrains(c, RunInOrder(server, Phased(items[..k]), vault), items[k..], vault, size, p);
    }
  }

  /** From every idle reachable state, each path that is neither stale nor debounced ends with the
      same content whether the queue is drained in phased batches or run in its order, namely with
      what the vault holds. */
  lemma {:induction false} ReorderingPreservesMeaning(c: Config, states: seq<State>, events: seq<(Event, int)>,
        k: nat, size: nat, p: Path)
    requires Run(c, states, events) && k < |states| && states[k].flight.Idle? && size > 0
    requires p !in states[k].stale && p !in states[k].pd.debounced
    ensures var st := states[k];
            Copy(DrainPhased(st.server, st.pd.queue, st.vault, size), p)
            == Copy(RunInOrder(st.server, st.pd.queue, st.vault), p)
            == Want(c, st.vault, p)
  {
    var st := states[k];
    RunKeepsInv(c, states, events, k);
    assert PathOk(c, st, p);
    EmptyFront(st.pd.queue);
    SettledRuns(c, st.server, st.pd.queue, st.vault, p);
    SettledDrains(c, st.server, st.pd.queue, st.vault, size, p);
  }

  /** A list on which the two differ: an upsert followed by a delete of a note that is in the vault. */
  lemma {:induction false} ReorderingChangesMeaning(server: map<Path, Note>, vault: map<Path, File>, u: Item, d: Item,
        p: Path)
    requires u.op == Upsert(p) && d.op == Delete(p) && p in vault
    ensures p !in RunInOrder(server, [u, d], vault) && p in DrainPhased(server, [u, d], vault, 15)
  {
    var ph := [d, u];
    assert [u, d][..2] == [u, d] && [u, d][2..] == [];
    assert Phased([u, d]) == ph by {
      PairPhased(u, d);
    }
    assert DrainPhased(RunInOrder(server, ph, vault), [], vault, 15) == RunInOrder(server, ph, vault);
  }

  lemma PairPhased(u: Item, d: Item)
    requires u.op.Upsert? && d.op.Delete?
    ensures Phased([u, d]) == [d, u]
  {
    var r, del, up := Renames, Deletes, Upserts;
    KindOfPair(u, d, r);
    KindOfPair(u, d, del);
    KindOfPair(u, d, up);
  }
}
