/** Reconcile and restart keep the sync invariant, and with them every run does. */
module SyncTheorem {
  import opened Common
  import opened QueueItems
  import opened Batches
  import opened SyncStates
  import opened SyncSafety
  import opened SyncRequests
  import opened SyncUpserts

  // ---- reconcile -----------------------------------------------------------------

  lemma {:induction false} EnqueueUpsertsEffect(items: seq<Item>, ps: seq<Path>, now: int, q: Path)
    ensures Last(EnqueueUpserts(items, ps, now), q, false) == if q in ps then Some(Upsert(q)) else Last(items, q, false)
    ensures Last(EnqueueUpserts(items, ps, now), q, true) == Last(items, q, true)
  {
    if ps != [] {
      var init, p := ps[..|ps| - 1], ps[|ps| - 1];
      assert ps == init + [p];
      EnqueueUpsertsEffect(items, init, now, q);
      EnqueueUpsertEffect(EnqueueUpserts(items, init, now), p, now, q);
    }
  }

  lemma {:induction false} EnqueueDeletesEffect(items: seq<Item>, ps: seq<Path>, now: int, q: Path, hard: bool)
    ensures Last(EnqueueDeletes(items, ps, now), q, hard) == if q in ps then Some(Delete(q)) else Last(items, q, hard)
  {
    if ps != [] {
      var init, p := ps[..|ps| - 1], ps[|ps| - 1];
      assert ps == init + [p];
      EnqueueDeletesEffect(items, init, now, q, hard);
      EnqueueDeleteEffect(EnqueueDeletes(items, init, now), p, now, q, hard);
    }
  }

  /** What the diff leaves of each path: an upsert last, a delete last, or what was there. */
  lemma {:induction false} DiffQueueEffect(items: seq<Item>, upserts: seq<Path>, deletes: seq<Path>, now: int, q: Path)
    requires q in upserts ==> q !in deletes
    ensures Last(DiffQueue(items, upserts, deletes, now), q, false)
            == if q in upserts then Some(Upsert(q)) else if q in deletes then Some(Delete(q)) else Last(items, q, false)
    ensures Last(DiffQueue(items, upserts, deletes, now), q, true)
            == if q in deletes then Some(Delete(q)) else Last(items, q, true)
  {
    EnqueueUpsertsEffect(items, upserts, now, q);
    EnqueueDeletesEffect(EnqueueUpserts(items, upserts, now), deletes, now, q, false);
    EnqueueDeletesEffect(EnqueueUpserts(items, upserts, now), deletes, now, q, true);
  }

  lemma {:induction false} EnqueueUpsertsSynced(c: Config, items: seq<Item>, ps: seq<Path>, now: int)
    requires UpsertsSynced(c, items) && forall p :: p in ps ==> c.Synced(p)
    ensures UpsertsSynced(c, EnqueueUpserts(items, ps, now))
  {
    if ps != [] {
      var init, p := ps[..|ps| - 1], ps[|ps| - 1];
      assert ps == init + [p];
      EnqueueUpsertsSynced(c, items, init, now);
      EnqueueSynced(c, EnqueueUpserts(items, init, now), {Upsert(p)}, [Item(Upsert(p), now, 0)]);
    }
  }

  lemma {:induction false} EnqueueDeletesSynced(c: Config, items: seq<Item>, ps: seq<Path>, now: int)
    requires UpsertsSynced(c, items)
    ensures UpsertsSynced(c, EnqueueDeletes(items, ps, now))
  {
    if ps != [] {
      var init, p := ps[..|ps| - 1], ps[|ps| - 1];
      EnqueueDeletesSynced(c, items, init, now);
      EnqueueSynced(c, EnqueueDeletes(items, init, now), {Upsert(p), Delete(p)}, [Item(Delete(p), now, 0)]);
    }
  }

  /** A path that the diff enqueued is settled on any copy; any other stays settled if it was. */
  lemma DiffSettles(c: Config, st: State, upserts: seq<Path>, deletes: seq<Path>, now: int, a: seq<Item>,
        p: Path, copy: Option<Content>)
    requires forall q :: q in upserts ==> Want(c, st.vault, q).Some?
    requires forall q :: q in deletes ==> Want(c, st.vault, q).None?
    requires p in upserts || p in deletes || Settled(c, st.vault, st.pd.debounced, a + st.pd.queue, p, copy)
    ensures Settled(c, st.vault, st.pd.debounced, a + OnDiff(st.pd, upserts, deletes, now).queue, p, copy)
  {
    if upserts != [] || deletes != [] {
      var q := DiffQueue(st.pd.queue, upserts, deletes, now);
      DiffQueueEffect(st.pd.queue, upserts, deletes, now, p);
      ViewConcat(a, st.pd.queue, p);
      ViewConcat(a, q, p);
    }
  }

  lemma DiffKeepsReads(c: Config, st: State, upserts: seq<Path>, deletes: seq<Path>, now: int, p: Path)
    requires forall q :: q in upserts ==> Want(c, st.vault, q).Some?
    requires forall q :: q in deletes ==> Want(c, st.vault, q).None?
    requires p in upserts || p in deletes || ReadsOk(c, st, p)
    ensures ReadsOk(c, st.(pd := OnDiff(st.pd, upserts, deletes, now)), p)
  {
    var pd' := OnDiff(st.pd, upserts, deletes, now);
    EmptyFront(st.pd.queue);
    EmptyFront(pd'.queue);
    if st.flight.Building? {
      if p in st.flight.payloads {
        DiffSettles(c, st, upserts, deletes, now, [], p, Some(st.flight.payloads[p].content));
      }
      if p in upserts || p in deletes || Settled(c, st.vault, st.pd.debounced, st.pd.queue, p, None) {
        DiffSettles(c, st, upserts, deletes, now, [], p, None);
      }
    }
  }

  lemma DiffKeepsShape(c: Config, st: State, upserts: seq<Path>, deletes: seq<Path>, now: int)
    requires Shape(c, st) && forall q :: q in upserts ==> c.Synced(q)
    ensures Shape(c, st.(pd := OnDiff(st.pd, upserts, deletes, now)))
  {
    EnqueueUpsertsSynced(c, st.pd.queue, upserts, now);
    EnqueueDeletesSynced(c, EnqueueUpserts(st.pd.queue, upserts, now), deletes, now);
  }

  /** Reconciling against any manifest, however stale, while anything is pending keeps the
      invariant, and every path it enqueues stops being stale. */
  lemma DiffKeepsInv(c: Config, st: State, upserts: seq<Path>, deletes: seq<Path>, now: int)
    requires Inv(c, st)
    requires forall q :: q in upserts ==> Want(c, st.vault, q).Some?
    requires forall q :: q in deletes ==> Want(c, st.vault, q).None?
    ensures Inv(c, st.(pd := OnDiff(st.pd, upserts, deletes, now), stale := st.stale - (set p | p in upserts
        + deletes)))
  {
    var st' := st.(pd := OnDiff(st.pd, upserts, deletes, now), stale := st.stale - (set p | p in upserts + deletes));
    DiffKeepsShape(c, st, upserts, deletes, now);
    forall p | p !in st'.stale ensures PathOk(c, st', p) {
      assert p !in st.stale ==> PathOk(c, st, p);
      DiffSettles(c, st, upserts, deletes, now, Owed(st.flight), p, Copy(st.server, p));
      DiffKeepsReads(c, st, upserts, deletes, now, p);
      if upserts == [] && deletes == [] {
        assert PathOk(c, st, p);
      }
    }
  }

  lemma ReconcileKeepsInv(c: Config, st: State, ev: Event, now: int)
    requires ev.Reconcile? && Inv(c, st) && Enabled(c, st, ev)
    ensures Inv(c, Next(c, st, ev, now))
  {
    var upserts := Outdated(ev.locals, st.vault, ev.manifest);
    var deletes := RemoteOnly(ev.remotes, ev.locals, ev.buried);
    forall q | q in upserts ensures Want(c, st.vault, q).Some? { assert q in ev.locals; }
    forall q | q in deletes ensures Want(c, st.vault, q).None? { assert q !in ev.locals; }
    DiffKeepsInv(c, st, upserts, deletes, now);
  }

  // ---- restart -----------------------------------------------------------------------

  lemma OwedItems(c: Config, st: State)
    requires Shape(c, st) && !st.flight.Idle?
    ensures forall x :: x in Owed(st.flight) ==> x in st.flight.batch
  {
    KindItems(st.flight.batch, Renames);
    KindItems(st.flight.batch, Upserts);
    if !st.flight.Renaming? {
      assert forall x :: x in st.flight.lists.retry ==> InLists(st.flight.lists, x);
    }
  }

  lemma RequestPathsInBatch(c: Config, st: State, p: Path)
    requires Shape(c, st) && p in RequestPaths(st.flight)
    ensures !st.flight.Idle? && p in Touched(st.flight.batch)
  {
    var batch := st.flight.batch;
    KindItems(batch, Renames);
    KindItems(batch, Deletes);
    KindItems(batch, Upserts);
    match st.flight
    case Renaming(_) => TouchedSubset(OfKind(batch, Renames), batch, p);
    case Deleting(_, _) => TouchedSubset(OfKind(batch, Deletes), batch, p);
    case Building(_, _, _, _) => TouchedSubset(OfKind(batch, Upserts), batch, p);
  }

  /** The batch in flight was lost: what it did not touch is as settled as before. */
  lemma LostBatchSettles(c: Config, st: State, server: map<Path, Note>, p: Path)
    requires Shape(c, st) && !st.flight.Idle? && Enabled(c, st, Restart(server)) && PathOk(c, st, p)
    requires p !in Touched(st.flight.batch) && (Want(c, st.vault, p).Some? ==> p !in st.pd.debounced)
    ensures Settled(c, st.vault, {}, st.pd.queue, p, Copy(server, p))
  {
    if p in RequestPaths(st.flight) { RequestPathsInBatch(c, st, p); }
    OwedItems(c, st);
    if p in Touched(Owed(st.flight)) { TouchedSubset(Owed(st.flight), st.flight.batch, p); }
    LastUntouched(Owed(st.flight), p, false);
    LastUntouched(Owed(st.flight), p, true);
    ViewConcat(Owed(st.flight), st.pd.queue, p);
  }

  /** The batch in flight is still on disk: running it again settles what it touched. */
  lemma SavedBatchSettles(c: Config, st: State, server: map<Path, Note>, p: Path)
    requires Shape(c, st) && !st.flight.Idle? && Enabled(c, st, Restart(server)) && PathOk(c, st, p)
    requires st.pd.saved != st.pd.queue && (Want(c, st.vault, p).Some? ==> p !in st.pd.debounced)
    ensures Settled(c, st.vault, {}, st.pd.saved, p, Copy(server, p))
  {
    var batch, q := st.flight.batch, st.pd.queue;
    ViewConcat(batch, q, p);
    if p in RequestPaths(st.flight) {
      RequestPathsInBatch(c, st, p);
      TouchedLast(batch, p);
      if !st.flight.Building? {
        HardInBatch(st.flight, p);
      } else {
        LastNone(q, p, true);
        LastNone(q, p, false);
        LastKind(q, p, true);
      }
    }
  }

  lemma {:induction false} HardInBatch(f: Flight, p: Path)
    requires (f.Renaming? || f.Deleting?) && p in RequestPaths(f)
    ensures Last(f.batch, p, true).Some?
  {
    var k := if f.Renaming? then Renames else Deletes;
    KindItems(f.batch, k);
    var i :| 0 <= i < |OfKind(f.batch, k)| && p in OpPaths(OfKind(f.batch, k)[i].op);
    assert OfKind(f.batch, k)[i] in OfKind(f.batch, k);
    LastNone(f.batch, p, true);
  }

  lemma RestartKeepsPath(c: Config, st: State, server: map<Path, Note>, now: int, p: Path)
    requires Shape(c, st) && PathOk(c, st, p) && Enabled(c, st, Restart(server))
    requires p !in Next(c, st, Restart(server), now).stale
    ensures Settled(c, st.vault, {}, st.pd.saved, p, Copy(server, p))
  {
    if Want(c, st.vault, p).Some? && p in st.pd.debounced {
      assert Last(st.pd.saved, p, false) == Some(Upsert(p));
    } else if st.flight.Idle? {
      EmptyFront(st.pd.queue);
    } else if st.pd.saved != st.pd.queue {
      SavedBatchSettles(c, st, server, p);
    } else if p !in Touched(st.flight.batch) {
      LostBatchSettles(c, st, server, p);
    } else {
      EmptyFront(st.pd.queue);
      DecidedSettles(c, st.vault, st.pd.debounced, Owed(st.flight), [], st.pd.queue, p, Copy(st.server, p),
        Copy(server, p));
    }
  }

  lemma RestartKeepsInv(c: Config, st: State, server: map<Path, Note>, now: int)
    requires Inv(c, st) && Enabled(c, st, Restart(server))
    ensures Inv(c, Next(c, st, Restart(server), now))
  {
    var st' := Next(c, st, Restart(server), now);
    EmptyFront(st.pd.saved);
    forall p | p !in st'.stale ensures PathOk(c, st', p) {
      assert PathOk(c, st, p);
      RestartKeepsPath(c, st, server, now, p);
    }
  }

  // ---- runs --------------------------------------------------------------------------------

  /** Every step keeps the invariant. */
  lemma NextKeepsInv(c: Config, st: State, ev: Event, now: int)
    requires Inv(c, st) && Enabled(c, st, ev)
    ensures Inv(c, Next(c, st, ev, now))
  {
    match ev
    case Take => TakeKeepsInv(c, st, now);
    case RenameReply(reply, effects) => RenameReplyKeepsInv(c, st, reply, effects, now);
    case DeleteReply(reply, effects) => DeleteReplyKeepsInv(c, st, reply, effects, now);
    case ReadNext(outcome) => ReadNextKeepsInv(c, st, outcome, now);
    case SyncReply(reply, synced) => SyncReplyKeepsInv(c, st, reply, synced, now);
    case Reconcile(_, _, _, _) => ReconcileKeepsInv(c, st, ev, now);
    case Restart(server) => RestartKeepsInv(c, st, server, now);
    case _ => VaultEventKeepsInv(c, st, ev, now);
  }

  /** The plugin starts with nothing pending; what differs at that point is stale. */
  ghost predicate Start(c: Config, st: State) {
    && st.flight.Idle? && st.pd == Pending({}, [], [])
    && forall p :: p !in st.stale ==> Copy(st.server, p) == Want(c, st.vault, p)
  }

  ghost predicate Run(c: Config, states: seq<State>, events: seq<(Event, int)>) {
    && |states| == |events| + 1 && Start(c, states[0])
    && forall i :: 0 <= i < |events| ==>
         Enabled(c, states[i], events[i].0) && states[i + 1] == Next(c, states[i], events[i].0, events[i].1)
  }

  lemma {:induction false} RunKeepsInv(c: Config, states: seq<State>, events: seq<(Event, int)>, k: nat)
    requires Run(c, states, events) && k < |states|
    ensures Inv(c, states[k])
  {
    if k > 0 {
      RunKeepsInv(c, states, events, k - 1);
      NextKeepsInv(c, states[k - 1], events[k - 1].0, events[k - 1].1);
    } else {
      EmptyFront([]);
    }
  }

  /** Sync safety. In every state of every run, whatever the requests' outcomes and however they
      interleave with edits, reconciles and restarts: a path that no debounced, queued or owed
      operation touches holds on the server exactly what it holds in the vault, or is stale. */
  lemma SyncIsSafe(c: Config, states: seq<State>, events: seq<(Event, int)>, k: nat, p: Path)
    requires Run(c, states, events) && k < |states|
    requires var st := states[k];
             p !in st.stale && p !in st.pd.debounced && p !in Touched(st.pd.queue) && p !in Touched(Owed(st.flight))
    ensures Copy(states[k].server, p) == Want(c, states[k].vault, p)
  {
    var st := states[k];
    RunKeepsInv(c, states, events, k);
    assert PathOk(c, st, p);
    TouchedConcat(Owed(st.flight), st.pd.queue);
    LastUntouched(Owed(st.flight) + st.pd.queue, p, false);
    LastUntouched(Owed(st.flight) + st.pd.queue, p, true);
  }

  ghost predicate Quiet(st: State) {
    st.flight.Idle? && st.pd.queue == [] && st.pd.debounced == {}
  }

  /** When nothing is pending and nothing went stale, the server is the synced vault. */
  lemma QuietMeansEqual(c: Config, states: seq<State>, events: seq<(Event, int)>, k: nat)
    requires Run(c, states, events) && k < |states|
    requires Quiet(states[k]) && states[k].stale == {}
    ensures forall p :: Copy(states[k].server, p) == Want(c, states[k].vault, p)
  {
    forall p ensures Copy(states[k].server, p) == Want(c, states[k].vault, p) {
      SyncIsSafe(c, states, events, k, p);
    }
  }
}
