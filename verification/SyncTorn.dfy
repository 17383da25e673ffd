/** Exactly when a request leaves a path unsettled. One statement for each of the three requests, over every
    batch, every answer and every effect (obsidian/src/sync-engine.ts:300-397). Where the server does what it
    acknowledges and nothing is dropped or out of attempts, the one way is a torn batch: an operation of the
    path was put back although a later one was acknowledged. */
module SyncTorn {
  import opened Common
  import opened QueueItems
  import opened Batches
  import opened Draining
  import opened SyncStates
  import opened SyncSafety
  import opened SyncRequests
  import opened SyncUpserts

  /** What the state says about one path: the operations still owed settle it. */
  ghost predicate SettledIn(c: Config, st: State, p: Path) {
    Settled(c, st.vault, st.pd.debounced, Owed(st.flight) + st.pd.queue, p, Copy(st.server, p))
  }

  /** What comes after the batch settles the path whatever the server holds: an edit or an operation of a wanted
      path, a delete or rename of an unwanted one. */
  predicate LaterDecides(c: Config, st: State, p: Path) {
    if Want(c, st.vault, p).Some? then p in st.pd.debounced || p in Touched(st.pd.queue)
    else Last(st.pd.queue, p, true).Some?
  }

  /** What was put back does for the path what the vault asks for. */
  predicate BackSettles(c: Config, vault: map<Path, File>, server: map<Path, Note>, back: seq<Item>, p: Path) {
    if Want(c, vault, p).Some? then
      if p in Touched(back) then Last(back, p, false) == Some(Upsert(p)) else Copy(server, p) == Want(c, vault, p)
    else
      if Last(back, p, true).Some? then !Restores(back, p) else p !in server
  }

  /** Ending a batch: the path is settled exactly when something later decides it, or what is put back does. */
  lemma FinishSettlesIff(c: Config, st: State, batch: seq<Item>, l: Lists, server: map<Path, Note>, lost: set<Path>,
        p: Path)
    requires PathOk(c, st, p)
    ensures SettledIn(c, Finish(c, st, batch, l, server, lost), p)
            <==> LaterDecides(c, st, p) || BackSettles(c, st.vault, server, PutBack(batch, l, c.maxAttempts), p)
  {
    var back, q := PutBack(batch, l, c.maxAttempts), st.pd.queue;
    EmptyFront(back + q);
    ViewConcat(Owed(st.flight), q, p);
    ViewConcat(back, q, p);
    TouchedLast(q, p);
    TouchedLast(back, p);
  }

  // ---- renames -----------------------------------------------------------------------------

  /** After a rename request a wanted path is settled, and so is an unwanted one that a later delete or rename
      decides; any other must be removed by what was put back, or be gone. If no rename of the path was skipped
      or dropped, it is unsettled exactly when it was torn. */
  lemma {:induction false} RenameReplySettlesIff(c: Config, st: State, reply: Reply, effects: seq<Effect>, now: int,
        p: Path)
    requires Shape(c, st) && PathOk(c, st, p) && Enabled(c, st, RenameReply(reply, effects))
    requires !RequestPhase(NoLists, OfKind(st.flight.batch, Renames), reply).stop
    ensures var next := Next(c, st, RenameReply(reply, effects), now);
            var back := Returned(OfKind(st.flight.batch, Renames), reply);
            SettledIn(c, next, p)
            <==> || Want(c, st.vault, p).Some? || Last(NotOfKind(st.flight.batch, Renames) + st.pd.queue, p, true).Some?
                 || if p in Touched(back) then !Restores(back, p) else p !in next.server
    ensures var renames := OfKind(st.flight.batch, Renames);
            && p !in SkippedRenames(renames, effects, reply) && p !in Refused(renames, reply)
            ==> (SettledIn(c, Next(c, st, RenameReply(reply, effects), now), p)
                 <==> !(&& Want(c, st.vault, p).None?
                        && Last(NotOfKind(st.flight.batch, Renames) + st.pd.queue, p, true).None?
                        && Restores(Returned(renames, reply), p)))
  {
    var renames := OfKind(st.flight.batch, Renames);
    KindItems(st.flight.batch, Renames);
    OwedAfterRenames(c, st, reply, effects, now);
    RenamesBack(c, st, reply, effects, p);
    if p !in SkippedRenames(renames, effects, reply) && p !in Refused(renames, reply) {
      RenamesTear(c, st, reply, effects, p);
      TouchedLast(Returned(renames, reply), p);
      ReturnedItems(renames, reply);
    }
  }

  lemma {:induction false} OwedAfterRenames(c: Config, st: State, reply: Reply, effects: seq<Effect>, now: int)
    requires Enabled(c, st, RenameReply(reply, effects))
    requires !RequestPhase(NoLists, OfKind(st.flight.batch, Renames), reply).stop
    requires forall x :: x in OfKind(st.flight.batch, Renames) ==> !x.op.Upsert?
    ensures var st' := Next(c, st, RenameReply(reply, effects), now);
            var batch := st.flight.batch;
            && st'.vault == st.vault && st'.pd == st.pd
            && st'.server == HardEffects(st.server, OfKind(batch, Renames), effects)
            && Owed(st'.flight) == Returned(OfKind(batch, Renames), reply) + NotOfKind(batch, Renames)
  {
    var renames := OfKind(st.flight.batch, Renames);
    var l' := RequestPhase(NoLists, renames, reply).lists;
    KindItems(st.flight.batch, Renames);
    assert Next(c, st, RenameReply(reply, effects), now).flight == Deleting(st.flight.batch, l');
    RetryOfNone(renames, reply);
  }

  lemma {:induction false} OwedAfterDeletes(c: Config, st: State, reply: Reply, effects: seq<Effect>, now: int)
    requires Enabled(c, st, DeleteReply(reply, effects))
    requires !RequestPhase(st.flight.lists, OfKind(st.flight.batch, Deletes), reply).stop
    requires forall x :: x in OfKind(st.flight.batch, Deletes) ==> !x.op.Upsert?
    ensures var st' := Next(c, st, DeleteReply(reply, effects), now);
            var batch := st.flight.batch;
            && st'.vault == st.vault && st'.pd == st.pd
            && st'.server == HardEffects(st.server, OfKind(batch, Deletes), effects)
            && Owed(st'.flight)
               == (st.flight.lists.retry + Returned(OfKind(batch, Deletes), reply)) + OfKind(batch, Upserts)
  {
    RequestLists(st.flight.lists, OfKind(st.flight.batch, Deletes), reply);
  }

  // ---- deletes -----------------------------------------------------------------------------

  /** After a delete request a wanted path is settled, and so is an unwanted one that the queue decides or whose
      delete was put back; any other must be removed by what the rename request put back, or be gone. If no
      delete of the path was dropped, it is unsettled exactly when it was torn. */
  lemma {:induction false} DeleteReplySettlesIff(c: Config, st: State, reply: Reply, effects: seq<Effect>, now: int,
        p: Path)
    requires Shape(c, st) && PathOk(c, st, p) && Enabled(c, st, DeleteReply(reply, effects))
    requires !RequestPhase(st.flight.lists, OfKind(st.flight.batch, Deletes), reply).stop
    ensures var next, a := Next(c, st, DeleteReply(reply, effects), now), st.flight.lists.retry;
            SettledIn(c, next, p)
            <==> || Want(c, st.vault, p).Some? || Last(st.pd.queue, p, true).Some?
                 || p in Touched(Returned(OfKind(st.flight.batch, Deletes), reply))
                 || if Last(a, p, true).Some? then !Restores(a, p) else p !in next.server
    ensures var deletes := OfKind(st.flight.batch, Deletes);
            p !in Refused(deletes, reply)
            ==> (SettledIn(c, Next(c, st, DeleteReply(reply, effects), now), p)
                 <==> !(&& Want(c, st.vault, p).None? && Last(st.pd.queue, p, true).None?
                        && p in Touched(deletes) && p !in Touched(Returned(deletes, reply))
                        && Restores(st.flight.lists.retry, p)))
  {
    var deletes := OfKind(st.flight.batch, Deletes);
    KindItems(st.flight.batch, Deletes);
    OwedAfterDeletes(c, st, reply, effects, now);
    DeletesBack(c, st, reply, effects, p);
    if p !in Refused(deletes, reply) {
      DeletesTear(c, st, reply, effects, p);
    }
  }

  // ---- upserts -----------------------------------------------------------------------------

  /** After the note request, with what has an attempt left put back: a wanted path is settled exactly when it is
      debounced, queued, or its upsert is back, or when nothing of it is back and the server has its content; an
      unwanted path exactly when the queue decides it, or what is back removes it, or it is gone. */
  lemma {:induction false} SyncReplySettlesIff(c: Config, st: State, reply: Reply, synced: map<Path, Effect>,
        now: int, p: Path)
    requires Shape(c, st) && PathOk(c, st, p) && Enabled(c, st, SyncReply(reply, synced))
    ensures var next, q := Next(c, st, SyncReply(reply, synced), now), st.pd.queue;
            var hard, notes := Bump(st.flight.lists.retry, c.maxAttempts), Bump(UpsertsBack(st, reply), c.maxAttempts);
            SettledIn(c, next, p)
            <==> if Want(c, st.vault, p).Some? then
                   || p in st.pd.debounced || p in Touched(q) || p in Touched(notes)
                   || (p !in Touched(hard) && Copy(next.server, p) == Want(c, st.vault, p))
                 else
                   || Last(q, p, true).Some?
                   || if Last(hard, p, true).Some? then !Restores(hard, p) else p !in next.server
  {
    var batch, l := st.flight.batch, st.flight.lists;
    var res := UpsertPhase(l, OfKind(batch, Upserts), st.flight.outcomes, reply);
    var hard, notes := Bump(l.retry, c.maxAttempts), Bump(UpsertsBack(st, reply), c.maxAttempts);
    SyncRetry(batch, l, st.flight.outcomes, reply);
    UpsertPhaseFacts(c, st, reply);
    BumpConcat(l.retry, UpsertsBack(st, reply), c.maxAttempts);
    BumpItems(l.retry, c.maxAttempts);
    BumpItems(UpsertsBack(st, reply), c.maxAttempts);
    FinishSettlesIff(c, st, batch, res.lists, SyncEffect(st.server, synced),
      LostByNotes(c, st, synced, reply), p);
    ViewConcat(hard, notes, p);
    TouchedConcat(hard, notes);
    UpsertsLast(notes, p);
    LastKind(hard, p, false);
    TouchedLast(hard, p);
  }

  /** If the note was stored when it was acknowledged, and nothing of the path is dropped or out of attempts, it is
      unsettled exactly when it was torn. */
  lemma SyncReplyTearsIff(c: Config, st: State, reply: Reply, synced: map<Path, Effect>, now: int, p: Path)
    requires Shape(c, st) && PathOk(c, st, p) && Enabled(c, st, SyncReply(reply, synced))
    requires p !in UnstoredNotes(st.flight.payloads, synced, reply)
    requires p !in Touched(UpsertPhase(NoLists, OfKind(st.flight.batch, Upserts), st.flight.outcomes, reply)
                             .lists.dropped)
    requires p !in Exhausted(st.flight.lists.retry + UpsertsBack(st, reply), c.maxAttempts)
    ensures SettledIn(c, Next(c, st, SyncReply(reply, synced), now), p)
            <==> !(&& Want(c, st.vault, p).Some? && p !in st.pd.debounced && p !in Touched(st.pd.queue)
                   && p in Touched(st.flight.lists.retry) && p !in Touched(UpsertsBack(st, reply)))
  {
    var batch, l, q := st.flight.batch, st.flight.lists, st.pd.queue;
    var retry := l.retry + UpsertsBack(st, reply);
    SyncRetry(batch, l, st.flight.outcomes, reply);
    UpsertBackIff(c, st, reply, synced, p);
    BumpKeepsLast(retry, c.maxAttempts, p, false);
    BumpKeepsLast(retry, c.maxAttempts, p, true);
    ViewConcat(retry, q, p);
    ViewConcat(Bump(retry, c.maxAttempts), q, p);
    EmptyFront(Bump(retry, c.maxAttempts) + q);
  }

  /** A path with a debounced edit becomes stale there only if a rename onto it was put back. */
  lemma DebouncedIsTornByRename(c: Config, st: State, reply: Reply, p: Path)
    requires st.flight.Building? && |st.flight.outcomes| == |OfKind(st.flight.batch, Upserts)|
    requires p in st.pd.debounced && p in TornByNotes(c, st, reply)
    ensures exists x :: x in st.flight.lists.retry && x.op.Rename? && x.op.newPath == p
  {
    var k := LastAt(st.flight.lists.retry, p, true);
    assert st.flight.lists.retry[k] in st.flight.lists.retry;
  }

  // ---- the smallest instance -------------------------------------------------------------

  function One(x: Item, there: bool): seq<Item> {
    if there then [x] else []
  }

  lemma OneUpsert(u: Item, l: Lists, failed: set<Op>)
    ensures UpsertPhase(l, [u], [Built], Answered(failed))
            == BatchResult(Lists(l.acked + One(u, u.op !in failed), l.retry + One(u, u.op in failed), l.dropped), false)
  {
    assert [Built][0] == Built;
    assert [u][..0] == [] && [Built][..0] == [];
    assert ByRead([u], [Built], Vanished, false) == [];
    assert ByRead([u], [Built], BuildFailed, false) == [];
    assert ByRead([u], [Built], BuildFailed, true) == [u];
    OneAnswered(u, failed);
    assert l.acked + [] == l.acked && l.retry + [] == l.retry;
  }

  lemma OneDelete(d: Item, failed: set<Op>)
    ensures RequestPhase(NoLists, [d], Answered(failed))
            == BatchResult(Lists(One(d, d.op !in failed), One(d, d.op in failed), []), false)
  {
    OneAnswered(d, failed);
  }

  lemma DeleteThenUpsert(d: Item, u: Item, p: Path)
    requires d.op == Delete(p) && u.op == Upsert(p)
    ensures OfKind([d, u], Renames) == [] && OfKind([d, u], Deletes) == [d] && OfKind([d, u], Upserts) == [u]
  {
    KindOfPair(d, u, Renames);
    KindOfPair(d, u, Deletes);
    KindOfPair(d, u, Upserts);
  }

  /** A delete and an upsert in one batch, each acknowledged or reported as failed. */
  lemma PairVerdict(d: Item, u: Item, p: Path, df: set<Op>, uf: set<Op>)
    requires d.op == Delete(p) && u.op == Upsert(p)
    ensures OfKind([d, u], Upserts) == [u]
    ensures BatchVerdict([d, u], Answered({}), Answered(df), [Built], Answered(uf)).lists
            == Lists(One(d, d.op !in df) + One(u, u.op !in uf), One(d, d.op in df) + One(u, u.op in uf), [])
  {
    DeleteThenUpsert(d, u, p);
    OneDelete(d, df);
    OneUpsert(u, Lists(One(d, d.op !in df), One(d, d.op in df), []), uf);
  }

  lemma PairIsClassified(d: Item, u: Item, dFailed: bool, uFailed: bool, l: Lists)
    requires l.acked == One(d, !dFailed) + One(u, !uFailed) && l.retry == One(d, dFailed) + One(u, uFailed)
    ensures ToRetry([d, u], l) == l.retry
  {
    assert d in One(d, true) && u in One(u, true);
    assert d in l.acked || d in l.retry;
    assert u in l.acked || u in l.retry;
    ClassifiedLeavesNothing([d, u], l);
    assert l.retry + [] == l.retry;
  }

  lemma PairPutBack(d: Item, u: Item, dFailed: bool, uFailed: bool, l: Lists, max: nat)
    requires d.attempt < max && u.attempt < max
    requires l.acked == One(d, !dFailed) + One(u, !uFailed) && l.retry == One(d, dFailed) + One(u, uFailed)
    ensures PutBack([d, u], l, max) == One(Retried(d), dFailed) + One(Retried(u), uFailed)
  {
    PairIsClassified(d, u, dFailed, uFailed, l);
    BumpOne(d, dFailed, [], max);
    BumpOne(u, uFailed, One(d, dFailed), max);
    assert [] + One(d, dFailed) == One(d, dFailed) && [] + One(Retried(d), dFailed) == One(Retried(d), dFailed);
  }

  lemma {:induction false} BumpOne(x: Item, there: bool, before: seq<Item>, max: nat)
    requires x.attempt < max
    ensures Bump(before + One(x, there), max) == Bump(before, max) + One(Retried(x), there)
  {
    BumpConcat(before, One(x, there), max);
    assert [x][..0] == [];
  }

  /** The smallest instance, from the batch itself: a note deleted and created again, both operations in one batch.
      What is put back settles the live note exactly when it is not the case that the delete is reported as failed
      while the upsert is taken. As a run, with the delete that follows: `SyncDivergence.TornNoteDiverges`. */
  lemma TornPairSettlesIff(c: Config, vault: map<Path, File>, d: Item, u: Item, p: Path, df: set<Op>, uf: set<Op>,
        copy: Option<Content>)
    requires d.op == Delete(p) && u.op == Upsert(p) && d.attempt < c.maxAttempts && u.attempt < c.maxAttempts
    requires Want(c, vault, p).Some? && (u.op !in uf ==> copy == Want(c, vault, p))
    ensures OfKind([d, u], Upserts) == [u]
    ensures var l := BatchVerdict([d, u], Answered({}), Answered(df), [Built], Answered(uf)).lists;
            Settled(c, vault, {}, PutBack([d, u], l, c.maxAttempts), p, copy) <==> !(d.op in df && u.op !in uf)
  {
    PairVerdict(d, u, p, df, uf);
    var l := BatchVerdict([d, u], Answered({}), Answered(df), [Built], Answered(uf)).lists;
    PairPutBack(d, u, d.op in df, u.op in uf, l, c.maxAttempts);
    LastPair(Retried(d), Retried(u), d.op in df, u.op in uf, p);
  }

  lemma {:induction false} LastPair(d: Item, u: Item, dThere: bool, uThere: bool, p: Path)
    requires d.op == Delete(p) && u.op == Upsert(p)
    ensures Last(One(d, dThere) + One(u, uThere), p, false)
            == if uThere then Some(u.op) else if dThere then Some(d.op) else None
  {
    var items := One(d, dThere) + One(u, uThere);
    if uThere {
      assert items[|items| - 1] == u;
    } else if dThere {
      assert items[|items| - 1] == d;
    }
  }
}
