/** What a reconcile repairs, and when the next one is idle. */
module Reconciling {
  import opened Common
  import opened QueueItems
  import opened Batches
  import opened SyncStates
  import opened SyncSafety
  import opened SyncRequests
  import opened SyncTheorem
  import opened Reordering
  import opened SyncRuns
  import opened SyncLiveness

  function EntryOf(n: Note): Entry { Entry(n.mtime, n.size) }

  function Manifest(server: map<Path, Note>): map<Path, Entry> {
    map p | p in server :: EntryOf(server[p])
  }

  /** The paths a reconcile against the true manifest leaves different: files skipped by mtime and
      size although their content differs, and remote notes behind a fresh tombstone. */
  function Overlooked(c: Config, vault: map<Path, File>, server: map<Path, Note>, buried: set<Path>): set<Path> {
    set p | p in server
            && if p in vault && c.Synced(p) then Matches(vault[p], EntryOf(server[p]))
                && server[p].content != vault[p].content
               else p in buried
  }

  /** Reconciling against the true manifest with nothing pending: whatever the server held before,
      only the overlooked paths are stale afterwards. */
  lemma ReconcileRepairs(c: Config, st: State, locals: seq<Path>, remotes: seq<Path>, buried: set<Path>, now: int)
    requires Quiet(st) && st.pd.saved == []
    requires Enabled(c, st, SyncStates.Reconcile(locals, remotes, Manifest(st.server), buried))
    ensures var st' := Next(c, st, SyncStates.Reconcile(locals, remotes, Manifest(st.server), buried), now);
            Inv(c, st'.(stale := Overlooked(c, st.vault, st.server, buried)))
  {
    var upserts := Outdated(locals, st.vault, Manifest(st.server));
    var deletes := RemoteOnly(remotes, locals, buried);
    forall q | q in upserts ensures Want(c, st.vault, q).Some? { assert q in locals; }
    forall q | q in deletes ensures Want(c, st.vault, q).None? { assert q !in locals; }
    var before := st.(stale := Overlooked(c, st.vault, st.server, buried) + (set p | p in upserts + deletes));
    EmptyFront([]);
    forall p | p !in before.stale ensures PathOk(c, before, p) {
      assert p in st.vault && c.Synced(p) ==> p in locals;
      assert p in st.server ==> p in remotes;
    }
    DiffKeepsInv(c, before, upserts, deletes, now);
    var after := before.(pd := OnDiff(before.pd, upserts, deletes, now),
        stale := before.stale - (set p | p in upserts + deletes));
    StaleMonotone(c, after, Overlooked(c, st.vault, st.server, buried));
  }

  lemma StaleMonotone(c: Config, st: State, stale: set<Path>)
    requires Inv(c, st) && st.stale <= stale
    ensures Inv(c, st.(stale := stale))
  {
    forall p | p !in stale ensures PathOk(c, st.(stale := stale), p) {
      assert PathOk(c, st, p);
    }
  }

  // ---- draining what it enqueued ------------------------------------------------------

  /** All the list's operations on the path are `op`. */
  ghost predicate OnlyOp(items: seq<Item>, p: Path, op: Op) {
    forall x :: x in items && p in OpPaths(x.op) ==> x.op == op
  }

  /** What one or more runs of the same operation leave at the path. */
  function Outcome(server: map<Path, Note>, vault: map<Path, File>, p: Path, op: Option<Op>): Option<Note> {
    match op
    case Some(Upsert(q)) =>
      if p in vault then Some(Stored(server, p, vault[p])) else if p in server then Some(server[p]) else None
    case Some(Delete(q)) => None
    case _ => if p in server then Some(server[p]) else None
  }

  function Sole(items: seq<Item>, p: Path, op: Op): Option<Op> {
    if p in Touched(items) then Some(op) else None
  }

  lemma {:induction false} RunSole(server: map<Path, Note>, items: seq<Item>, vault: map<Path, File>, p: Path, op: Op)
    requires op == Upsert(p) || op == Delete(p)
    requires OnlyOp(items, p, op)
    ensures NoteAt(RunInOrder(server, items, vault), p) == Outcome(server, vault, p, Sole(items, p, op))
  {
    if items != [] {
      var init, it := items[..|items| - 1], items[|items| - 1];
      assert items == init + [it] && it in items;
      RunSole(server, init, vault, p, op);
      TouchedConcat(init, [it]);
      assert p in Touched([it]) <==> p in OpPaths(it.op) by {
        assert [it][0] == it;
      }
    }
  }

  lemma PhasedTouched(batch: seq<Item>, p: Path)
    ensures forall x :: x in Phased(batch) <==> x in batch
    ensures p in Touched(Phased(batch)) <==> p in Touched(batch)
  {
    KindItems(batch, Renames);
    KindItems(batch, Deletes);
    KindItems(batch, Upserts);
    if p in Touched(batch) { TouchedSubset(batch, Phased(batch), p); }
    if p in Touched(Phased(batch)) { TouchedSubset(Phased(batch), batch, p); }
  }

  /** A path's one operation, run in one batch and then in the others. */
  lemma OutcomeTwice(server: map<Path, Note>, server': map<Path, Note>, vault: map<Path, File>, p: Path,
        first: Option<Op>, second: Option<Op>)
    requires NoteAt(server', p) == Outcome(server, vault, p, first)
    requires first.Some? ==> first.value == Upsert(p) || first.value == Delete(p)
    requires second.Some? && first.Some? ==> second == first
    ensures Outcome(server', vault, p, second) == Outcome(server, vault, p, if first.Some? then first else second)
  {}

  lemma {:induction false} DrainSole(server: map<Path, Note>, items: seq<Item>, vault: map<Path, File>,
        size: nat, p: Path, op: Op)
    requires size > 0 && (op == Upsert(p) || op == Delete(p)) && OnlyOp(items, p, op)
    ensures NoteAt(DrainPhased(server, items, vault, size), p) == Outcome(server, vault, p, Sole(items, p, op))
    decreases |items|
  {
    if items != [] {
      var k := Min(size, |items|);
      var batch, rest := items[..k], items[k..];
      assert items == batch + rest;
      PhasedTouched(batch, p);
      var server' := RunInOrder(server, Phased(batch), vault);
      RunSole(server, Phased(batch), vault, p, op);
      DrainSole(server', rest, vault, size, p, op);
      TouchedConcat(batch, rest);
      OutcomeTwice(server, server', vault, p, Sole(Phased(batch), p, op), Sole(rest, p, op));
    }
  }

  lemma {:induction false} UpsertsEnqueued(items: seq<Item>, ps: seq<Path>, now: int)
    ensures forall x :: x in EnqueueUpserts(items, ps, now) ==> x in items || (x.op.Upsert? && x.op.path in ps)
  {
    if ps != [] {
      var init, p := ps[..|ps| - 1], ps[|ps| - 1];
      assert ps == init + [p];
      UpsertsEnqueued(items, init, now);
      WithoutItems(EnqueueUpserts(items, init, now), {Upsert(p)});
    }
  }

  lemma {:induction false} DeletesEnqueued(items: seq<Item>, ps: seq<Path>, now: int)
    ensures forall x :: x in EnqueueDeletes(items, ps, now) ==> x in items || (x.op.Delete? && x.op.path in ps)
  {
    if ps != [] {
      var init, p := ps[..|ps| - 1], ps[|ps| - 1];
      assert ps == init + [p];
      DeletesEnqueued(items, init, now);
      WithoutItems(EnqueueDeletes(items, init, now), {Upsert(p), Delete(p)});
    }
  }

  /** The rows after the diff of a quiet queue has been drained. */
  lemma {:induction false} RowsAfterDiff(server: map<Path, Note>, vault: map<Path, File>, upserts: seq<Path>,
        deletes: seq<Path>, now: int, size: nat, p: Path)
    requires size > 0 && (forall q :: q in upserts ==> q in vault && q !in deletes)
    ensures NoteAt(DrainPhased(server, DiffQueue([], upserts, deletes, now), vault, size), p)
            == if p in upserts then Some(Stored(server, p, vault[p])) else if p in deletes then None
                else NoteAt(server, p)
  {
    var items := DiffQueue([], upserts, deletes, now);
    UpsertsEnqueued([], upserts, now);
    DeletesEnqueued(EnqueueUpserts([], upserts, now), deletes, now);
    DiffQueueEffect([], upserts, deletes, now, p);
    TouchedLast(items, p);
    var op := if p in upserts then Upsert(p) else Delete(p);
    DrainSole(server, items, vault, size, p, op);
  }

  /** Draining what a reconcile enqueued makes the server equal to the synced vault, exactly up to those. */
  lemma {:induction false} ReconcileThenDrain(c: Config, st: State, locals: seq<Path>, remotes: seq<Path>,
        buried: set<Path>, now: int, size: nat, p: Path)
    requires Quiet(st) && st.pd.saved == [] && size > 0
    requires Enabled(c, st, SyncStates.Reconcile(locals, remotes, Manifest(st.server), buried))
    ensures var st' := Next(c, st, SyncStates.Reconcile(locals, remotes, Manifest(st.server), buried), now);
            Copy(DrainPhased(st'.server, st'.pd.queue, st'.vault, size), p) == Want(c, st.vault, p)
            <==> p !in Overlooked(c, st.vault, st.server, buried)
  {
    ReconcileRepairs(c, st, locals, remotes, buried, now);
    var st' := Next(c, st, SyncStates.Reconcile(locals, remotes, Manifest(st.server), buried), now);
    if p in Overlooked(c, st.vault, st.server, buried) {
      var upserts, deletes := Outdated(locals, st.vault, Manifest(st.server)), RemoteOnly(remotes, locals, buried);
      RowsAfterDiff(st.server, st.vault, upserts, deletes, now, size, p);
    } else {
      assert PathOk(c, st'.(stale := Overlooked(c, st.vault, st.server, buried)), p);
      EmptyFront(st'.pd.queue);
      SettledDrains(c, st'.server, st'.pd.queue, st'.vault, size, p);
    }
  }

  /** As a run: from any quiet state, however far apart the two sides are, a reconcile against the true
      manifest and successful rounds of the drain loop end quiet with exactly those paths different. */
  lemma ReconcileReachesSync(c: Config, states: seq<State>, events: Events, locals: seq<Path>, remotes: seq<Path>,
        buried: set<Path>, now: int)
    returns (states': seq<State>, rounds: Events)
    requires Run(c, states, events) && Quiet(states[|events|]) && c.batchSize > 0
    requires Enabled(c, states[|events|],
               SyncStates.Reconcile(locals, remotes, Manifest(states[|events|].server), buried))
    ensures var st := states[|events|];
            var more := [(SyncStates.Reconcile(locals, remotes, Manifest(st.server), buried), now)] + rounds;
            && Run(c, states', events + more) && states <= states' && Successful(rounds)
            && var last := states'[|events + more|];
            && Quiet(last) && last.vault == st.vault
            && (forall p :: p in Overlooked(c, st.vault, st.server, buried) <==>
                              Copy(last.server, p) != Want(c, st.vault, p))
            && forall p :: Copy(last.server, p) != Want(c, st.vault, p) <==>
                 p in st.server
                 && if Want(c, st.vault, p).Some? then
                      && st.server[p].size == Some(st.vault[p].size) && st.vault[p].mtime - st.server[p].mtime <= 1000
                      && Copy(st.server, p) != Want(c, st.vault, p)
                    else p in buried
  {
    var st := states[|events|];
    RunKeepsInv(c, states, events, |events|);
    var ev := SyncStates.Reconcile(locals, remotes, Manifest(st.server), buried);
    var mid := Next(c, st, ev, now);
    rounds := RoundsEmptyQueue(c, mid, now);
    AfterStep(c, st, ev, now, mid, rounds, After(c, mid, rounds));
    states' := RunExtends(c, states, events, [(ev, now)] + rounds);
    forall p ensures Copy(After(c, mid, rounds).server, p) == Want(c, st.vault, p)
                     <==> p !in Overlooked(c, st.vault, st.server, buried)
    {
      ReconcileThenDrain(c, st, locals, remotes, buried, now, c.batchSize, p);
    }
  }

  // ---- the second reconcile -----------------------------------------------------------

  /** The second of two reconciles in a row enqueues nothing exactly when no file was upserted the
      first time although the server already had its content: such an upsert leaves the row's mtime
      and size as they were, and the file is upserted again every time. */
  lemma {:induction false} SecondReconcileIsIdleIff(c: Config, st: State, locals: seq<Path>, remotes: seq<Path>,
        remotes': seq<Path>, buried: set<Path>, now: int, size: nat)
    requires Quiet(st) && size > 0
    requires Enabled(c, st, SyncStates.Reconcile(locals, remotes, Manifest(st.server), buried))
    requires var queue :=
               DiffQueue([], Outdated(locals, st.vault, Manifest(st.server)), RemoteOnly(remotes, locals, buried), now);
             forall p :: p in remotes' <==> p in DrainPhased(st.server, queue, st.vault, size)
    ensures var queue :=
              DiffQueue([], Outdated(locals, st.vault, Manifest(st.server)), RemoteOnly(remotes, locals, buried), now);
            var server' := DrainPhased(st.server, queue, st.vault, size);
            (Outdated(locals, st.vault, Manifest(server')) == [] && RemoteOnly(remotes', locals, buried) == [])
            <==> (forall p :: p in locals && p in st.server && !Matches(st.vault[p], EntryOf(st.server[p])) ==>
                    st.server[p].content != st.vault[p].content)
  {
    var upserts := Outdated(locals, st.vault, Manifest(st.server));
    var deletes := RemoteOnly(remotes, locals, buried);
    var server' := DrainPhased(st.server, DiffQueue([], upserts, deletes, now), st.vault, size);
    forall p ensures NoteAt(server', p)
                     == if p in upserts then Some(Stored(st.server, p, st.vault[p]))
                        else if p in deletes then None else NoteAt(st.server, p)
    {
      RowsAfterDiff(st.server, st.vault, upserts, deletes, now, size, p);
    }
    NothingRemoteOnly(st, locals, remotes, remotes', buried, server', deletes);
    StillOutdated(st, locals, upserts, deletes, server');
    EmptyIff(Outdated(locals, st.vault, Manifest(server')));
  }

  lemma EmptyIff(ps: seq<Path>)
    ensures ps == [] <==> forall p :: p !in ps
  {
    if ps != [] {
      assert ps[0] in ps;
    }
  }

  lemma {:induction false} NothingRemoteOnly(st: State, locals: seq<Path>, remotes: seq<Path>, remotes': seq<Path>,
        buried: set<Path>, server': map<Path, Note>, deletes: seq<Path>)
    requires deletes == RemoteOnly(remotes, locals, buried)
    requires (forall p :: p in remotes <==> p in Manifest(st.server)) && (forall p :: p in remotes' <==> p in server')
    requires forall p :: p in server' ==> p in locals || (p in st.server && p !in deletes)
    ensures RemoteOnly(remotes', locals, buried) == []
  {
    EmptyIff(RemoteOnly(remotes', locals, buried));
  }

  /** A file is outdated again exactly when its first upsert kept the old row. */
  lemma {:induction false} StillOutdated(st: State, locals: seq<Path>, upserts: seq<Path>, deletes: seq<Path>,
        server': map<Path, Note>)
    requires forall p :: p in locals ==> p in st.vault && p !in deletes
    requires upserts == Outdated(locals, st.vault, Manifest(st.server))
    requires forall p :: NoteAt(server', p)
                         == if p in upserts then Some(Stored(st.server, p, st.vault[p]))
                             else if p in deletes then None else NoteAt(st.server, p)
    ensures forall p :: p in Outdated(locals, st.vault, Manifest(server'))
                        <==>
                        p in locals && p in st.server && !Matches(st.vault[p], EntryOf(st.server[p]))
                        && st.server[p].content == st.vault[p].content
  {
    forall p | p in locals
      ensures p in Outdated(locals, st.vault, Manifest(server'))
              <==>
              p in st.server && !Matches(st.vault[p], EntryOf(st.server[p]))
              && st.server[p].content == st.vault[p].content
    {
      assert NoteAt(server', p) == if p in upserts then Some(Stored(st.server, p, st.vault[p]))
          else NoteAt(st.server, p);
    }
  }

  lemma DiffQueueIsEmptyIff(upserts: seq<Path>, deletes: seq<Path>, now: int)
    ensures DiffQueue([], upserts, deletes, now) == [] <==> upserts == [] && deletes == []
  {}

  /** One second pass, in a state that the drain of the first has led to. */
  lemma SecondDiff(c: Config, st: State, last: State, locals: seq<Path>, remotes: seq<Path>, remotes': seq<Path>,
        buried: set<Path>, now: int)
    requires Quiet(st) && Quiet(last) && c.batchSize > 0 && last.vault == st.vault
    requires Enabled(c, st, SyncStates.Reconcile(locals, remotes, Manifest(st.server), buried))
    requires var mid := Next(c, st, SyncStates.Reconcile(locals, remotes, Manifest(st.server), buried), now);
             last.server == DrainPhased(mid.server, mid.pd.queue, mid.vault, c.batchSize)
    requires Enabled(c, last, SyncStates.Reconcile(locals, remotes', Manifest(last.server), buried))
    ensures Next(c, last, SyncStates.Reconcile(locals, remotes', Manifest(last.server), buried), now).pd.queue == []
            <==> forall p :: p in locals && p in st.server && !Matches(st.vault[p], EntryOf(st.server[p])) ==>
                   st.server[p].content != st.vault[p].content
  {
    var upserts := Outdated(locals, st.vault, Manifest(st.server));
    var deletes := RemoteOnly(remotes, locals, buried);
    DiffQueueIsEmptyIff(upserts, deletes, now);
    assert last.server == DrainPhased(st.server, DiffQueue([], upserts, deletes, now), st.vault, c.batchSize);
    assert forall p :: p in Manifest(last.server) <==> p in last.server;
    SecondReconcileIsIdleIff(c, st, locals, remotes, remotes', buried, now, c.batchSize);
    DiffQueueIsEmptyIff(Outdated(locals, last.vault, Manifest(last.server)), RemoteOnly(remotes', locals, buried), now);
  }

  /** As a run: from any quiet state, a reconcile against the true manifest and successful rounds end in a state from
      which the next reconcile against the then true manifest enqueues nothing exactly under that condition. */
  lemma SecondPassIsIdleIff(c: Config, states: seq<State>, events: Events, locals: seq<Path>, remotes: seq<Path>,
        buried: set<Path>, now: int)
    returns (states': seq<State>, rounds: Events)
    requires Run(c, states, events) && Quiet(states[|events|]) && c.batchSize > 0
    requires Enabled(c, states[|events|],
               SyncStates.Reconcile(locals, remotes, Manifest(states[|events|].server), buried))
    ensures var st := states[|events|];
            var more := [(SyncStates.Reconcile(locals, remotes, Manifest(st.server), buried), now)] + rounds;
            && Run(c, states', events + more) && states <= states' && Successful(rounds)
            && var last := states'[|events + more|];
            && Quiet(last)
            && forall remotes' {:trigger SyncStates.Reconcile(locals, remotes', Manifest(last.server), buried)} ::
                 Enabled(c, last, SyncStates.Reconcile(locals, remotes', Manifest(last.server), buried)) ==>
                   (Next(c, last, SyncStates.Reconcile(locals, remotes', Manifest(last.server), buried), now).pd.queue
                    == []
                    <==> forall p :: p in locals && p in st.server && !Matches(st.vault[p], EntryOf(st.server[p])) ==>
                           st.server[p].content != st.vault[p].content)
  {
    var st := states[|events|];
    var ev := SyncStates.Reconcile(locals, remotes, Manifest(st.server), buried);
    var mid := Next(c, st, ev, now);
    rounds := RoundsEmptyQueue(c, mid, now);
    var last := After(c, mid, rounds);
    AfterStep(c, st, ev, now, mid, rounds, last);
    states' := RunExtends(c, states, events, [(ev, now)] + rounds);
    forall remotes' | Enabled(c, last, SyncStates.Reconcile(locals, remotes', Manifest(last.server), buried))
      ensures Next(c, last, SyncStates.Reconcile(locals, remotes', Manifest(last.server), buried), now).pd.queue == []
              <==> forall p :: p in locals && p in st.server && !Matches(st.vault[p], EntryOf(st.server[p])) ==>
                     st.server[p].content != st.vault[p].content
    {
      SecondDiff(c, st, last, locals, remotes, remotes', buried, now);
    }
  }

}
