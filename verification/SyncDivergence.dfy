/** Runs after which the two sides differ although nothing is pending, one for each way a path goes stale: changes
    the plugin does not see, restarts, operations dropped, out of attempts, or acknowledged and not carried out,
    and batches torn by each of the three requests (obsidian/src/sync-engine.ts, obsidian/src/queue.ts). */
module SyncDivergence {
  import opened Common
  import opened QueueItems
  import opened Batches
  import opened Draining
  import opened SyncStates
  import opened SyncSafety
  import opened SyncTheorem
  import opened SyncTorn
  import opened SyncRuns
  import opened Reordering
  import opened NoteStore

  /** Nothing is pending, and the path differs all the same. */
  ghost predicate Diverged(c: Config, st: State, p: Path) {
    Quiet(st) && Copy(st.server, p) != Want(c, st.vault, p)
  }

  /** A quiet state in which `p` is a synced file that the server has; `f` would change it. */
  ghost predicate InSync(c: Config, st: State, p: Path, f: File) {
    && Quiet(st) && st.pd.saved == [] && c.batchSize > 0
    && p in st.vault && c.Synced(p)
    && Copy(st.server, p) == Want(c, st.vault, p) && f.content != st.vault[p].content
  }

  // ---- changes the plugin does not see ---------------------------------------------------------

  /** Renaming a synced note to a name that is not tracked leaves it on the server with nothing pending. */
  lemma UntrackedMoveDiverges(c: Config, st: State, o: Path, n: Path, now: int)
    requires Quiet(st) && o in st.vault && n !in st.vault && c.Synced(o) && !c.tracked(n)
    requires Copy(st.server, o) == Want(c, st.vault, o)
    ensures var st' := Next(c, st, Move(o, n), now);
            Quiet(st') && Want(c, st'.vault, o).None? && Copy(st'.server, o).Some?
  {}

  /** From a quiet state in which `o` is in sync, a move leaves the old path settled exactly when it
      does not take a synced file to a name that is not tracked. */
  lemma MoveSettlesOldPathIff(c: Config, st: State, o: Path, n: Path, now: int)
    requires Quiet(st) && o in st.vault && n !in st.vault
    requires Copy(st.server, o) == Want(c, st.vault, o)
    ensures var st' := Next(c, st, Move(o, n), now);
            Settled(c, st'.vault, st'.pd.debounced, st'.pd.queue, o, Copy(st'.server, o))
            <==> !(c.Synced(o) && !c.tracked(n))
  {
    if c.Synced(o) && !c.tracked(n) {
      UntrackedMoveDiverges(c, st, o, n, now);
    } else {
      EmptyFront(st.pd.queue);
      EmptyFront(Next(c, st, Move(o, n), now).pd.queue);
      MoveKeepsSettled(c, st.vault, st.pd, o, n, now, [], o, Copy(st.server, o));
    }
  }

  /** A change behind the plugin's back. */
  lemma UnseenChangeDiverges(c: Config, st: State, p: Path, f: File, now: int)
    requires InSync(c, st, p, f)
    ensures Diverged(c, Next(c, st, Unseen(st.vault[p := f]), now), p)
  {}

  // ---- single events ---------------------------------------------------------------------------

  /** A synced file is created or modified; of a Markdown file the metadata event follows. */
  lemma WriteQueues(c: Config, st: State, ev: Event, now: int) returns (evs: Events)
    requires (ev.Create? || ev.Modify?) && Enabled(c, st, ev) && c.Synced(ev.path) && ev.path !in st.pd.debounced
    ensures Feasible(c, st, evs)
    ensures After(c, st, evs)
            == State(st.vault[ev.path := ev.file], st.server, st.pd.Put(EnqueueUpsert(st.pd.queue, ev.path, now)),
                     st.flight, st.stale - {ev.path})
  {
    var p, s1 := ev.path, Next(c, st, ev, now);
    AfterOne(c, st, ev, now);
    evs := [(ev, now)];
    if c.markdown(p) {
      assert s1.pd.debounced - {p} == st.pd.debounced;
      AfterOne(c, s1, MetadataChanged(p), now);
      AfterConcat(c, st, evs, [(MetadataChanged(p), now)]);
      evs := evs + [(MetadataChanged(p), now)];
    }
  }

  lemma FirstUpsert(p: Path, now: int)
    ensures EnqueueUpsert([], p, now) == [Item(Upsert(p), now, 0)]
  {
    assert Without([], {Upsert(p)}) + [Item(Upsert(p), now, 0)] == [Item(Upsert(p), now, 0)];
  }

  /** A tracked file is removed. */
  lemma RemoveQueues(c: Config, st: State, p: Path, now: int)
    requires p in st.vault && c.tracked(p)
    ensures Next(c, st, Remove(p), now)
            == State(st.vault - {p}, st.server, st.pd.Put(EnqueueDelete(st.pd.queue, p, now)), st.flight,
                     st.stale - {p})
  {
    assert st.stale - {p} + {} == st.stale - {p};
  }

  lemma FirstDelete(p: Path, now: int)
    ensures EnqueueDelete([], p, now) == [Item(Delete(p), now, 0)]
  {
    assert Without([], {Upsert(p), Delete(p)}) + [Item(Delete(p), now, 0)] == [Item(Delete(p), now, 0)];
  }

  /** A file is moved to a synced name. */
  lemma MoveQueues(c: Config, st: State, o: Path, n: Path, now: int)
    requires o in st.vault && n !in st.vault && c.Synced(n)
    ensures Next(c, st, Move(o, n), now)
            == State((st.vault - {o})[n := st.vault[o]], st.server, st.pd.Put(EnqueueRename(st.pd.queue, o, n, now)),
                     st.flight, st.stale - {o, n})
  {
    assert st.stale - {o, n} + {} == st.stale - {o, n};
  }

  lemma FirstRename(o: Path, n: Path, now: int)
    ensures EnqueueRename([], o, n, now) == [Item(Rename(o, n), now, 0), Item(Upsert(n), now, 0)]
  {
    var pair := [Item(Rename(o, n), now, 0), Item(Upsert(n), now, 0)];
    assert Without([], {Upsert(o), Upsert(n), Rename(o, n)}) + pair == pair;
  }

  lemma TakeOne(c: Config, st: State, x: Item, now: int)
    requires st.flight.Idle? && st.pd.queue == [x] && c.batchSize > 0
    ensures Enabled(c, st, Take)
    ensures Next(c, st, Take, now) == st.(pd := st.pd.(queue := []), flight := Renaming([x]))
  {
    assert [x][..1] == [x] && [x][1..] == [];
  }

  // ---- restarts ----------------------------------------------------------------------------------

  /** A restart while a batch is in flight, after another enqueue: the persisted queue no longer has the batch, so
      nothing is pending for the modified file, yet the server has its old content. */
  lemma RestartAfterEnqueueDiverges(c: Config, st: State, p: Path, f: File, q: Path, g: File, now: int)
    returns (evs: Events)
    requires InSync(c, st, p, f) && q in st.vault && c.Synced(q) && q != p
    ensures Feasible(c, st, evs)
    ensures var last := After(c, st, evs);
            && p !in Touched(last.pd.queue) && p !in last.pd.debounced && last.flight.Idle?
            && Copy(last.server, p) != Want(c, last.vault, p)
  {
    FirstUpsert(p, now);
    FirstUpsert(q, now);
    var first := WriteQueues(c, st, Modify(p, f), now);
    var s1 := After(c, st, first);
    TakeOne(c, s1, Item(Upsert(p), now, 0), now);
    var s2 := Next(c, s1, Take, now);
    var second := WriteQueues(c, s2, Modify(q, g), now);
    var s3 := After(c, s2, second);
    var last := Next(c, s3, Restart(s3.server), now);
    AfterOne(c, s3, Restart(s3.server), now);
    AfterConcat(c, s2, second, [(Restart(s3.server), now)]);
    AfterStep(c, s1, Take, now, s2, second + [(Restart(s3.server), now)], last);
    AfterConcat(c, st, first, [(Take, now)] + (second + [(Restart(s3.server), now)]));
    evs := first + ([(Take, now)] + (second + [(Restart(s3.server), now)]));
    TouchedOne(Item(Upsert(q), now, 0), q);
  }

  /** A restart loses the debounced edit of a note. */
  lemma RestartLosesDebouncedEdit(c: Config, st: State, p: Path, f: File, now: int)
    requires Quiet(st) && st.pd.saved == [] && p in st.vault && c.Synced(p) && c.markdown(p)
    requires Copy(st.server, p) == Want(c, st.vault, p) && f.content != st.vault[p].content
    ensures var edited := Next(c, st, Modify(p, f), now);
            Enabled(c, edited, Restart(edited.server))
            && Diverged(c, Next(c, edited, Restart(edited.server), now), p)
  {}

  // ---- rounds with few operations ------------------------------------------------------------------

  lemma OneUpsertKinds(x: Item)
    requires x.op.Upsert?
    ensures OfKind([x], Renames) == [] && OfKind([x], Deletes) == [] && OfKind([x], Upserts) == [x]
  {
    KindOfOne(x, Renames);
    KindOfOne(x, Deletes);
    KindOfOne(x, Upserts);
  }

  lemma {:induction false} OneRead(x: Item, p: Path, vault: map<Path, File>)
    requires x.op == Upsert(p) && p in vault
    ensures Outcomes([x], vault) == [Built] && Payloads([x], vault) == map[p := vault[p]]
  {
    TouchedOne(x, p);
    assert [x][..0] == [];
  }

  lemma OneTaken(queue: seq<Item>, x: Item, size: nat)
    requires queue == [x] && size > 0
    ensures Taken(queue, size) == [x] && queue[Min(size, |queue|)..] == []
  {}

  lemma ReadOfOne(x: Item)
    ensures ByRead([x], [Built], Vanished, false) == [] && ByRead([x], [Built], BuildFailed, false) == []
    ensures ByRead([x], [Built], BuildFailed, true) == [x]
  {
    assert [x][..0] == [] && [Built][..0] == [];
  }

  /** A round that takes the whole queue and does not stop, in terms of the batch's kinds and of the verdict. */
  lemma WholeRound(c: Config, st: State, renameReply: Reply, renamed: seq<Effect>, deleteReply: Reply,
        deleted: seq<Effect>, syncReply: Reply, synced: map<Path, Effect>, lists: Lists, now: int)
    returns (evs: Events)
    requires st.flight.Idle? && st.pd.queue != [] && c.batchSize >= |st.pd.queue|
    requires Plausible(OfKind(st.pd.queue, Renames), renamed, renameReply)
    requires Plausible(OfKind(st.pd.queue, Deletes), deleted, deleteReply)
    requires AllUpserts(OfKind(st.pd.queue, Upserts))
    requires PlausibleSync(Payloads(OfKind(st.pd.queue, Upserts), st.vault), synced)
    requires BatchVerdict(st.pd.queue, renameReply, deleteReply, Outcomes(OfKind(st.pd.queue, Upserts), st.vault),
                          syncReply) == BatchResult(lists, false)
    ensures Feasible(c, st, evs)
    ensures forall x :: x in OfKind(st.pd.queue, Renames) ==> !x.op.Upsert?
    ensures forall x :: x in OfKind(st.pd.queue, Deletes) ==> !x.op.Upsert?
    ensures var last, batch := After(c, st, evs), st.pd.queue;
            && last.vault == st.vault && last.flight.Idle? && last.pd == st.pd.Put(PutBack(batch, lists, c.maxAttempts))
            && last.server
               == SyncEffect(HardEffects(HardEffects(st.server, OfKind(batch, Renames), renamed),
                                         OfKind(batch, Deletes), deleted), synced)
  {
    var queue := st.pd.queue;
    assert Taken(queue, c.batchSize) == queue && queue[Min(c.batchSize, |queue|)..] == [];
    evs := RoundIsVerdict(c, st, renameReply, renamed, deleteReply, deleted, syncReply, synced, now);
    KindsAre(queue);
    var back := PutBack(queue, lists, c.maxAttempts);
    assert back + [] == back;
  }

  /** What is left of a single upsert after an answer or a refusal. */
  function UpsertLeft(x: Item, reply: Reply, max: nat): seq<Item> {
    if reply.Answered? && x.op in reply.failed && x.attempt < max then [Retried(x)] else []
  }

  lemma OneVerdict(x: Item, reply: Reply, max: nat)
    requires x.op.Upsert? && (reply.Answered? || reply == Raised(PermanentError))
    ensures PutBack([x], UpsertPhase(NoLists, [x], [Built], reply).lists, max) == UpsertLeft(x, reply, max)
  {
    var l := UpsertPhase(NoLists, [x], [Built], reply).lists;
    ReadOfOne(x);
    assert [Built][0] == Built;
    if reply.Answered? {
      OneAnswered(x, reply.failed);
    }
    OneLeft(x, l, max);
  }

  lemma OneLeft(x: Item, l: Lists, max: nat)
    requires l == Lists([x], [], []) || l == Lists([], [x], []) || l == Lists([], [], [x])
    ensures PutBack([x], l, max) == if l.retry != [] && x.attempt < max then [Retried(x)] else []
  {
    assert x in l.acked || x in l.retry || x in l.dropped;
    ClassifiedLeavesNothing([x], l);
    assert ToRetry([x], l) == l.retry;
    assert [x][..0] == [];
  }

  lemma {:induction false} NothingSent(server: map<Path, Note>, vault: map<Path, File>)
    ensures HardEffects(server, [], []) == server && SyncEffect(server, map[]) == server && Payloads([], vault) == map[]
  {}

  /** A round with one upsert. */
  lemma UpsertRound(c: Config, st: State, x: Item, p: Path, reply: Reply, e: Effect, now: int) returns (evs: Events)
    requires st.flight.Idle? && st.pd.queue == [x] && x.op == Upsert(p) && p in st.vault && c.batchSize > 0
    requires reply.Answered? || reply == Raised(PermanentError)
    ensures Feasible(c, st, evs)
    ensures var last := After(c, st, evs);
            && last.vault == st.vault && last.server == SyncEffect(st.server, map[p := e]) && last.flight.Idle?
            && last.pd == st.pd.Put(UpsertLeft(x, reply, c.maxAttempts))
  {
    OneUpsertKinds(x);
    OneRead(x, p, st.vault);
    OneVerdict(x, reply, c.maxAttempts);
    NothingSent(st.server, st.vault);
    evs := WholeRound(c, st, Success, [], Success, [], reply, map[p := e],
      UpsertPhase(NoLists, [x], [Built], reply).lists, now);
  }

  lemma SkippedChangesNothing(server: map<Path, Note>, p: Path)
    ensures SyncEffect(server, map[p := Skipped]) == server
  {}

  lemma {:induction false} OneHardEffect(server: map<Path, Note>, x: Item, e: Effect)
    requires !x.op.Upsert?
    ensures HardEffects(server, [x], [e]) == HardEffect(server, x.op, e)
  {
    assert [x][..0] == [] && [e][..0] == [];
  }

  /** A successful round with one delete. */
  lemma DeleteRound(c: Config, st: State, d: Item, now: int) returns (evs: Events)
    requires st.flight.Idle? && st.pd.queue == [d] && c.batchSize > 0 && d.op.Delete?
    ensures Feasible(c, st, evs)
    ensures var last := After(c, st, evs);
            && last.vault == st.vault && last.server == st.server - {d.op.path} && last.flight.Idle?
            && last.pd == Pending(st.pd.debounced, [], [])
  {
    KindOfOne(d, Renames);
    KindOfOne(d, Deletes);
    KindOfOne(d, Upserts);
    OneHardEffect(st.server, d, Done(None));
    OneTaken(st.pd.queue, d, c.batchSize);
    NothingSent(st.server - {d.op.path}, st.vault);
    RoundAnswered(c, st, [], [Done(None)], map[], now);
    evs := RoundEvents([d], st.vault, [], [Done(None)], map[], now);
  }

  /** A successful round with one rename of a note that the server has. */
  lemma RenameRound(c: Config, st: State, r: Item, now: int) returns (evs: Events)
    requires st.flight.Idle? && st.pd.queue == [r] && c.batchSize > 0 && r.op.Rename? && r.op.oldPath in st.server
    ensures Feasible(c, st, evs)
    ensures var last := After(c, st, evs);
            && last.vault == st.vault && last.server == (st.server - {r.op.oldPath})[r.op.newPath :=
                                                                                         st.server[r.op.oldPath]]
            && last.flight.Idle? && last.pd == Pending(st.pd.debounced, [], [])
  {
    KindOfOne(r, Renames);
    KindOfOne(r, Deletes);
    KindOfOne(r, Upserts);
    var e := Done(Some(st.server[r.op.oldPath]));
    OneHardEffect(st.server, r, e);
    OneTaken(st.pd.queue, r, c.batchSize);
    NothingSent(HardEffect(st.server, r.op, e), st.vault);
    RoundAnswered(c, st, [e], [], map[], now);
    evs := RoundEvents([r], st.vault, [e], [], map[], now);
  }

  // ---- dropped, and out of attempts ------------------------------------------------------------------

  /** An upsert that the server refuses for good is dropped. */
  lemma DroppedUpsertDiverges(c: Config, st: State, p: Path, f: File, now: int) returns (evs: Events)
    requires InSync(c, st, p, f)
    ensures Feasible(c, st, evs) && Diverged(c, After(c, st, evs), p)
  {
    FirstUpsert(p, now);
    var edit := WriteQueues(c, st, Modify(p, f), now);
    var edited := After(c, st, edit);
    var round := UpsertRound(c, edited, Item(Upsert(p), now, 0), p, Raised(PermanentError), Skipped, now);
    SkippedChangesNothing(st.server, p);
    AfterConcat(c, st, edit, round);
    evs := edit + round;
  }

  /** Round after round in which the note fails, until its attempts are used up. */
  lemma {:induction false} FailuresExhaust(c: Config, st: State, x: Item, p: Path, now: int) returns (evs: Events)
    requires st.flight.Idle? && st.pd.queue == [x] && x.op == Upsert(p) && p in st.vault && c.batchSize > 0
    requires st.pd.debounced == {}
    ensures Feasible(c, st, evs)
    ensures var last := After(c, st, evs);
            Quiet(last) && last.vault == st.vault && last.server == st.server
    decreases c.maxAttempts - x.attempt
  {
    SkippedChangesNothing(st.server, p);
    evs := UpsertRound(c, st, x, p, Answered({x.op}), Skipped, now);
    if x.attempt < c.maxAttempts {
      var more := FailuresExhaust(c, After(c, st, evs), Retried(x), p, now);
      AfterConcat(c, st, evs, more);
      evs := evs + more;
    }
  }

  /** An upsert that fails in every round is dropped when its attempts are used up. */
  lemma ExhaustedUpsertDiverges(c: Config, st: State, p: Path, f: File, now: int) returns (evs: Events)
    requires InSync(c, st, p, f)
    ensures Feasible(c, st, evs) && Diverged(c, After(c, st, evs), p)
  {
    FirstUpsert(p, now);
    var edit := WriteQueues(c, st, Modify(p, f), now);
    var edited := After(c, st, edit);
    var rounds := FailuresExhaust(c, edited, Item(Upsert(p), now, 0), p, now);
    AfterConcat(c, st, edit, rounds);
    evs := edit + rounds;
  }

  // ---- batches torn by one of the requests -------------------------------------------------------------

  /** Every item of the batch is classified, and one alone is put back. */
  lemma OneBack(batch: seq<Item>, l: Lists, x: Item, max: nat)
    requires l.retry == [x] && x.attempt < max
    requires forall y :: y in batch ==> y in l.acked || y in l.retry || y in l.dropped
    ensures PutBack(batch, l, max) == [Retried(x)]
  {
    ClassifiedLeavesNothing(batch, l);
    assert ToRetry(batch, l) == [x];
    assert [x][..0] == [];
  }

  lemma DeleteFails(d: Item, u: Item, p: Path)
    requires d.op == Delete(p) && u.op == Upsert(p)
    ensures OfKind([d, u], Upserts) == [u]
    ensures BatchVerdict([d, u], Success, Answered({d.op}), [Built], Success) == BatchResult(Lists([u], [d], []), false)
  {
    DeleteThenUpsert(d, u, p);
    OneDelete(d, {d.op});
    OneUpsert(u, Lists([], [d], []), {});
  }

  /** The round that tears a delete and an upsert of one file: the delete is reported as failed. */
  lemma DeleteFailsRound(c: Config, st: State, d: Item, u: Item, p: Path, now: int) returns (evs: Events)
    requires st.flight.Idle? && st.pd.queue == [d, u] && d.op == Delete(p) && u.op == Upsert(p) && p in st.vault
    requires c.batchSize >= 2 && d.attempt < c.maxAttempts
    ensures Feasible(c, st, evs)
    ensures var last := After(c, st, evs);
            && last.vault == st.vault && last.flight.Idle?
            && last.pd == Pending(st.pd.debounced, [Retried(d)], [Retried(d)])
  {
    DeleteThenUpsert(d, u, p);
    OneRead(u, p, st.vault);
    DeleteFails(d, u, p);
    var lists, reply := Lists([u], [d], []), Answered({d.op});
    var deleted: seq<Effect>, synced := [Done(None)], map[p := Done(Some(NoteOf(st.vault[p])))];
    assert Plausible([d], deleted, reply) && PlausibleSync(map[p := st.vault[p]], synced);
    OneBack([d, u], lists, d, c.maxAttempts);
    evs := WholeRound(c, st, Success, [], reply, deleted, Success, synced, lists, now);
  }

  /** A file removed and created again while offline, both in one batch; the delete is reported as failed, the upsert
      is taken. The delete alone runs again and removes the live note. */
  lemma TornNoteDiverges(c: Config, st: State, p: Path, f: File, now: int) returns (evs: Events)
    requires Quiet(st) && p in st.vault && c.Synced(p) && c.batchSize >= 2 && c.maxAttempts > 0
    ensures Feasible(c, st, evs) && Diverged(c, After(c, st, evs), p)
    ensures p in After(c, st, evs).vault && p !in After(c, st, evs).server
  {
    var d, u := Item(Delete(p), now, 0), Item(Upsert(p), now, 0);
    FirstDelete(p, now);
    RemoveQueues(c, st, p, now);
    var s1 := Next(c, st, Remove(p), now);
    var write := WriteQueues(c, s1, Create(p, f), now);
    var s2 := After(c, s1, write);
    UpsertBehindDelete(d, p, now);
    var round1 := DeleteFailsRound(c, s2, d, u, p, now);
    var s3 := After(c, s2, round1);
    var round2 := DeleteRound(c, s3, Retried(d), now);
    var last := After(c, s3, round2);
    AfterConcat(c, s2, round1, round2);
    AfterConcat(c, s1, write, round1 + round2);
    AfterStep(c, st, Remove(p), now, s1, write + (round1 + round2), last);
    evs := [(Remove(p), now)] + (write + (round1 + round2));
  }

  lemma UpsertBehindDelete(d: Item, p: Path, now: int)
    requires d.op == Delete(p)
    ensures EnqueueUpsert([d], p, now) == [d, Item(Upsert(p), now, 0)]
  {
    OneAnswered(d, {Upsert(p)});
  }

  lemma RenameThenDelete(r: Item, d: Item)
    requires r.op.Rename? && d.op.Delete?
    ensures OfKind([r, d], Renames) == [r] && OfKind([r, d], Deletes) == [d] && OfKind([r, d], Upserts) == []
  {
    KindOfPair(r, d, Renames);
    KindOfPair(r, d, Deletes);
    KindOfPair(r, d, Upserts);
  }

  lemma RenameFailsVerdict(r: Item, d: Item)
    requires r.op.Rename? && d.op.Delete?
    ensures OfKind([r, d], Upserts) == []
    ensures BatchVerdict([r, d], Answered({r.op}), Success, [], Success) == BatchResult(Lists([d], [r], []), false)
  {
    RenameThenDelete(r, d);
    OneAnswered(r, {r.op});
    OneAnswered(d, {});
  }

  /** The round that tears a rename and a delete of its new path: the rename is reported as failed. */
  lemma RenameFailsRound(c: Config, st: State, r: Item, d: Item, now: int) returns (evs: Events)
    requires st.flight.Idle? && st.pd.queue == [r, d] && r.op.Rename? && d.op.Delete?
    requires c.batchSize >= 2 && r.attempt < c.maxAttempts
    ensures Feasible(c, st, evs)
    ensures var last := After(c, st, evs);
            && last.vault == st.vault && last.flight.Idle? && last.server == st.server - {d.op.path}
            && last.pd == Pending(st.pd.debounced, [Retried(r)], [Retried(r)])
  {
    RenameThenDelete(r, d);
    RenameFailsVerdict(r, d);
    OneHardEffect(st.server, r, Skipped);
    OneHardEffect(st.server, d, Done(None));
    NothingSent(st.server - {d.op.path}, st.vault);
    OneBack([r, d], Lists([d], [r], []), r, c.maxAttempts);
    evs := WholeRound(c, st, Answered({r.op}), [Skipped], Success, [Done(None)], Success, map[], Lists([d], [r], []),
      now);
  }

  lemma DeleteBehindRename(o: Path, p: Path, now: int)
    ensures EnqueueDelete([Item(Rename(o, p), now, 0), Item(Upsert(p), now, 0)], p, now)
            == [Item(Rename(o, p), now, 0), Item(Delete(p), now, 0)]
  {
    var r, u := Item(Rename(o, p), now, 0), Item(Upsert(p), now, 0);
    PairAnswered(r, u, {Upsert(p), Delete(p)});
  }

  /** A note moved and then deleted, both in one batch; the rename is reported as failed, the delete, which finds
      nothing, is acknowledged. The rename alone runs again and brings the deleted note back. */
  lemma TornDeleteDiverges(c: Config, st: State, o: Path, p: Path, now: int) returns (evs: Events)
    requires Quiet(st) && o in st.vault && o in st.server && p !in st.vault && c.Synced(p)
    requires c.batchSize >= 2 && c.maxAttempts > 0
    ensures Feasible(c, st, evs) && Diverged(c, After(c, st, evs), p)
    ensures p !in After(c, st, evs).vault && p in After(c, st, evs).server
  {
    var r, d := Item(Rename(o, p), now, 0), Item(Delete(p), now, 0);
    FirstRename(o, p, now);
    MoveQueues(c, st, o, p, now);
    var s1 := Next(c, st, Move(o, p), now);
    DeleteBehindRename(o, p, now);
    RemoveQueues(c, s1, p, now);
    var s2 := Next(c, s1, Remove(p), now);
    var round1 := RenameFailsRound(c, s2, r, d, now);
    var s3 := After(c, s2, round1);
    var round2 := RenameRound(c, s3, Retried(r), now);
    var last := After(c, s3, round2);
    AfterConcat(c, s2, round1, round2);
    AfterStep(c, s1, Remove(p), now, s2, round1 + round2, last);
    AfterStep(c, st, Move(o, p), now, s1, [(Remove(p), now)] + (round1 + round2), last);
    evs := [(Move(o, p), now)] + ([(Remove(p), now)] + (round1 + round2));
  }

  lemma TwoRenamesKinds(r: Item, r': Item, u: Item)
    requires r.op.Rename? && r'.op.Rename? && u.op.Upsert?
    ensures var batch := [r, r', u];
            OfKind(batch, Renames) == [r, r'] && OfKind(batch, Deletes) == [] && OfKind(batch, Upserts) == [u]
  {
    assert [r, r', u][..2] == [r, r'];
    KindOfPair(r, r', Renames);
    KindOfPair(r, r', Deletes);
    KindOfPair(r, r', Upserts);
  }

  lemma FirstRenameFails(r: Item, r': Item, u: Item)
    requires r.op.Rename? && r'.op.Rename? && u.op.Upsert? && r.op != r'.op
    ensures OfKind([r, r', u], Upserts) == [u]
    ensures BatchVerdict([r, r', u], Answered({r.op}), Success, [Built], Success)
            == BatchResult(Lists([r', u], [r], []), false)
  {
    TwoRenamesKinds(r, r', u);
    PairAnswered(r, r', {r.op});
    assert RequestPhase(NoLists, [r, r'], Answered({r.op})).lists == Lists([r'], [r], []);
    OneUpsert(u, Lists([r'], [r], []), {});
  }

  /** The round that tears a chain of two renames: the first one is reported as failed. */
  lemma ChainFailsRound(c: Config, st: State, r: Item, r': Item, u: Item, now: int) returns (evs: Events)
    requires st.flight.Idle? && st.pd.queue == [r, r', u] && r.op.Rename? && r'.op.Rename? && u.op.Upsert?
    requires r.op != r'.op && u.op.path == r'.op.newPath && u.op.path in st.vault
    requires c.batchSize >= 3 && r.attempt < c.maxAttempts
    ensures Feasible(c, st, evs)
    ensures var last := After(c, st, evs);
            && last.vault == st.vault && last.flight.Idle?
            && (forall q :: q in st.server && q !in OpPaths(r'.op) ==> q in last.server)
            && last.pd == Pending(st.pd.debounced, [Retried(r)], [Retried(r)])
  {
    var p := u.op.path;
    TwoRenamesKinds(r, r', u);
    FirstRenameFails(r, r', u);
    OneRead(u, p, st.vault);
    var lists, reply := Lists([r', u], [r], []), Answered({r.op});
    var renamed: seq<Effect>, synced := [Skipped, Done(None)], map[p := Done(Some(NoteOf(st.vault[p])))];
    assert Plausible([r, r'], renamed, reply) && PlausibleSync(map[p := st.vault[p]], synced);
    OneBack([r, r', u], lists, r, c.maxAttempts);
    evs := WholeRound(c, st, reply, renamed, Success, [], Success, synced, lists, now);
    ChainLeaves(st.server, r, r', renamed, synced);
  }

  /** Whatever the second rename and the note do not name is still there. */
  lemma {:induction false} ChainLeaves(server: map<Path, Note>, r: Item, r': Item, renamed: seq<Effect>,
        synced: map<Path, Effect>)
    requires r.op.Rename? && r'.op.Rename? && renamed == [Skipped, Done(None)] && synced.Keys <= OpPaths(r'.op)
    ensures forall x :: x in [r, r'] ==> !x.op.Upsert?
    ensures var after := SyncEffect(HardEffects(HardEffects(server, [r, r'], renamed), [], []), synced);
            forall q :: q in server && q !in OpPaths(r'.op) ==> q in after
  {
    SkippedThenDone(server, r, r');
    var server1 := HardEffects(server, [r, r'], renamed);
    assert HardEffects(server1, [], []) == server1;
  }

  lemma {:induction false} SkippedThenDone(server: map<Path, Note>, r: Item, r': Item)
    requires r.op.Rename? && r'.op.Rename?
    ensures HardEffects(server, [r, r'], [Skipped, Done(None)]) == HardEffect(server, r'.op, Done(None))
  {
    assert [r, r'][..1] == [r] && [Skipped, Done(None)][..1] == [Skipped];
    OneHardEffect(server, r, Skipped);
  }

  lemma RenameBehindRename(o: Path, p: Path, n: Path, now: int)
    requires n != p
    ensures EnqueueRename([Item(Rename(o, p), now, 0), Item(Upsert(p), now, 0)], p, n, now)
            == [Item(Rename(o, p), now, 0), Item(Rename(p, n), now, 0), Item(Upsert(n), now, 0)]
  {
    var r, u := Item(Rename(o, p), now, 0), Item(Upsert(p), now, 0);
    PairAnswered(r, u, {Upsert(p), Upsert(n), Rename(p, n)});
  }

  /** A note moved twice, both renames in one batch; the first is reported as failed, the second, which finds nothing,
      is acknowledged. The first alone runs again and leaves the note under the name in between. */
  lemma TornRenameDiverges(c: Config, st: State, o: Path, p: Path, n: Path, now: int) returns (evs: Events)
    requires Quiet(st) && o in st.vault && o in st.server && p !in st.vault && n !in st.vault && p != n
    requires c.Synced(p) && c.Synced(n) && c.batchSize >= 3 && c.maxAttempts > 0
    ensures Feasible(c, st, evs) && Diverged(c, After(c, st, evs), p)
    ensures p !in After(c, st, evs).vault && p in After(c, st, evs).server
  {
    var r, r', u := Item(Rename(o, p), now, 0), Item(Rename(p, n), now, 0), Item(Upsert(n), now, 0);
    FirstRename(o, p, now);
    MoveQueues(c, st, o, p, now);
    var s1 := Next(c, st, Move(o, p), now);
    RenameBehindRename(o, p, n, now);
    MoveQueues(c, s1, p, n, now);
    var s2 := Next(c, s1, Move(p, n), now);
    var round1 := ChainFailsRound(c, s2, r, r', u, now);
    var s3 := After(c, s2, round1);
    var round2 := RenameRound(c, s3, Retried(r), now);
    var last := After(c, s3, round2);
    AfterConcat(c, s2, round1, round2);
    AfterStep(c, s1, Move(p, n), now, s2, round1 + round2, last);
    AfterStep(c, st, Move(o, p), now, s1, [(Move(p, n), now)] + (round1 + round2), last);
    evs := [(Move(o, p), now)] + ([(Move(p, n), now)] + (round1 + round2));
  }

  // ---- operations acknowledged and skipped, as the note store does ---------------------------------

  /** An upsert that the server acknowledges without storing it. */
  lemma SkippedUpsertDiverges(c: Config, st: State, p: Path, f: File, now: int) returns (evs: Events)
    requires InSync(c, st, p, f)
    ensures Feasible(c, st, evs) && Diverged(c, After(c, st, evs), p)
  {
    FirstUpsert(p, now);
    var edit := WriteQueues(c, st, Modify(p, f), now);
    var edited := After(c, st, edit);
    var round := UpsertRound(c, edited, Item(Upsert(p), now, 0), p, Success, Skipped, now);
    SkippedChangesNothing(st.server, p);
    AfterConcat(c, st, edit, round);
    evs := edit + round;
  }

  // ---- with the note store as the server ---------------------------------------------------------

  lemma RenamePairKinds(r: Item, u: Item)
    requires r.op.Rename? && u.op.Upsert?
    ensures OfKind([r, u], Renames) == [r] && OfKind([r, u], Deletes) == [] && OfKind([r, u], Upserts) == [u]
  {
    KindOfPair(r, u, Renames);
    KindOfPair(r, u, Deletes);
    KindOfPair(r, u, Upserts);
  }

  /** A round with a rename and its upsert. */
  lemma PairRound(c: Config, st: State, r: Item, u: Item, e1: Effect, e2: Effect, now: int) returns (evs: Events)
    requires st.flight.Idle? && st.pd.queue == [r, u] && c.batchSize >= 2
    requires r.op.Rename? && u.op.Upsert? && u.op.path in st.vault
    requires Plausible([r], [e1], Success)
    ensures Feasible(c, st, evs)
    ensures var last := After(c, st, evs);
            && last.vault == st.vault && last.flight.Idle? && last.pd == Pending(st.pd.debounced, [], [])
            && last.server == SyncEffect(HardEffect(st.server, r.op, e1), map[u.op.path := e2])
  {
    RenamePairKinds(r, u);
    OneHardEffect(st.server, r, e1);
    OneRead(u, u.op.path, st.vault);
    BothTaken(st.pd.queue, r, u, c.batchSize);
    assert HardEffects(HardEffect(st.server, r.op, e1), [], []) == HardEffect(st.server, r.op, e1);
    RoundAnswered(c, st, [e1], [], map[u.op.path := e2], now);
    evs := RoundEvents([r, u], st.vault, [e1], [], map[u.op.path := e2], now);
  }

  /** The same, answered by the note store. */
  lemma StoreRound(c: Config, st: State, rows: Rows, r: Item, u: Item, doc: string, others: set<string>,
        indexed: bool, now: int)
    returns (evs: Events)
    requires st.flight.Idle? && st.pd.queue == [r, u] && c.batchSize >= 2 && st.server == Live(rows)
    requires r.op.Rename? && u.op.Upsert? && u.op.path in st.vault
    ensures Feasible(c, st, evs)
    ensures var n := u.op.path;
            var rows' := UpsertNote(RenameNote(rows, r.op.oldPath, r.op.newPath), n, NoteOf(st.vault[n]), doc, others,
                                    indexed).0;
            var last := After(c, st, evs);
            && last.vault == st.vault && last.server == Live(rows') && last.flight.Idle?
            && last.pd == Pending(st.pd.debounced, [], [])
  {
    var n := u.op.path;
    var rows1 := RenameNote(rows, r.op.oldPath, r.op.newPath);
    var e := UpsertEffect(rows1, n, NoteOf(st.vault[n]), doc, others, indexed);
    StoreIsPlausible(rows, rows1, r, n, st.vault[n], doc, others, indexed);
    RenameRefines(rows, r.op.oldPath, r.op.newPath);
    UpsertRefines(rows1, n, NoteOf(st.vault[n]), doc, others, indexed);
    evs := PairRound(c, st, r, u, RenameEffect(rows, r.op.oldPath, r.op.newPath), e, now);
  }

  lemma BothTaken(queue: seq<Item>, r: Item, u: Item, size: nat)
    requires queue == [r, u] && size >= 2
    ensures Taken(queue, size) == [r, u] && queue[Min(size, |queue|)..] == []
  {}

  lemma StoreIsPlausible(rows: Rows, rows1: Rows, r: Item, n: Path, f: File, doc: string, others: set<string>,
        indexed: bool)
    requires r.op.Rename?
    ensures Plausible([r], [RenameEffect(rows, r.op.oldPath, r.op.newPath)], Success)
  {
    UpsertRefines(rows1, n, NoteOf(f), doc, others, indexed);
  }

  /** A note moved onto a name that still has a row, say of a deleted note: every request is answered as a
      success, nothing is pending, and the old path is still live. */
  lemma CollidingMoveDiverges(c: Config, st: State, rows: Rows, o: Path, n: Path, doc: string, others: set<string>,
        indexed: bool, now: int)
    returns (evs: Events)
    requires Quiet(st) && c.batchSize >= 2 && st.server == Live(rows)
    requires o in st.vault && n !in st.vault && c.Synced(n) && o in Live(rows) && n in rows
    ensures Feasible(c, st, evs) && Diverged(c, After(c, st, evs), o) && o in After(c, st, evs).server
  {
    FirstRename(o, n, now);
    MoveQueues(c, st, o, n, now);
    var moved := Next(c, st, Move(o, n), now);
    var round := StoreRound(c, moved, rows, Item(Rename(o, n), now, 0), Item(Upsert(n), now, 0), doc, others,
                            indexed, now);
    evs := [(Move(o, n), now)] + round;
    AfterStep(c, st, Move(o, n), now, moved, round, After(c, moved, round));
    UpsertKeepsOthers(RenameNote(rows, o, n), n, NoteOf(st.vault[o]), doc, others, indexed, o);
  }

  lemma UpsertKeepsOthers(rows: Rows, p: Path, f: Note, doc: string, others: set<string>, indexed: bool, q: Path)
    requires q != p && q in Live(rows)
    ensures q in Live(UpsertNote(rows, p, f, doc, others, indexed).0)
  {}

  /** A note deleted and, after the deletion has been synced, restored with its old text: every request is
      answered as a success, nothing is pending, and the server does not have it. */
  lemma RestoredFileDiverges(c: Config, st: State, rows: Rows, p: Path, f: File, others: set<string>, indexed: bool,
        now: int)
    returns (evs: Events)
    requires Quiet(st) && c.batchSize > 0 && st.server == Live(rows)
    requires p in st.vault && c.Synced(p) && c.markdown(p) && p in Live(rows)
    ensures Feasible(c, st, evs) && Diverged(c, After(c, st, evs), p) && p in After(c, st, evs).vault
  {
    FirstDelete(p, now);
    RemoveQueues(c, st, p, now);
    var s1 := Next(c, st, Remove(p), now);
    var round1 := DeleteRound(c, s1, Item(Delete(p), now, 0), now);
    var s2 := After(c, s1, round1);
    DeleteRefines(rows, p);
    FirstUpsert(p, now);
    var write := WriteQueues(c, s2, Create(p, f), now);
    var s3 := After(c, s2, write);
    RestoredNoteStaysDeleted(rows, p, NoteOf(f), others, indexed);
    var e := UpsertEffect(DeleteNote(rows, p), p, NoteOf(f), rows[p].doc, others, indexed);
    assert e == Skipped;
    var round2 := UpsertRound(c, s3, Item(Upsert(p), now, 0), p, Success, e, now);
    SkippedChangesNothing(s3.server, p);
    var last := After(c, s3, round2);
    AfterConcat(c, s2, write, round2);
    AfterConcat(c, s1, round1, write + round2);
    AfterStep(c, st, Remove(p), now, s1, round1 + (write + round2), last);
    evs := [(Remove(p), now)] + (round1 + (write + round2));
  }
}
