/** The sync invariant: every path that is not stale is settled, in every reachable state. */
module SyncSafety {
  import opened Common
  import opened QueueItems
  import opened Batches
  import opened SyncStates

  // ---- the invariant -------------------------------------------------------------

  /** Once `items` have run on a server whose copy of `p` is `copy`, the server holds what it
      should: a wanted path is debounced, or is upserted last, or is untouched and already equal; of
      an unwanted path the last delete or rename removes it, or there is none and it is absent. */
  predicate SettledBy(want: Option<Content>, debounced: bool, last: Option<Op>, lastHard: Option<Op>, p: Path,
        copy: Option<Content>) {
    match want
    case Some(x) => debounced || last == Some(Upsert(p)) || (last.None? && copy == want)
    case None => if lastHard.Some? then Removes(lastHard.value, p) else copy.None?
  }

  predicate Settled(c: Config, vault: map<Path, File>, debounced: set<Path>, items: seq<Item>, p: Path,
        copy: Option<Content>) {
    SettledBy(Want(c, vault, p), p in debounced, Last(items, p, false), Last(items, p, true), p, copy)
  }

  /** The operations of the batch in flight that are still owed, in the order they would be put back. */
  function Owed(f: Flight): seq<Item> {
    match f
    case Idle => []
    case Renaming(batch) => batch
    case Deleting(batch, l) => l.retry + NotOfKind(batch, Renames)
    case Building(batch, l, _, _) => l.retry + OfKind(batch, Upserts)
  }

  /** The payloads read so far are as good as a server copy for what happens after the batch. */
  ghost predicate ReadsOk(c: Config, st: State, p: Path) {
    st.flight.Building? ==>
      && (p in st.flight.payloads ==>
            Settled(c, st.vault, st.pd.debounced, st.pd.queue, p, Some(st.flight.payloads[p].content)))
      && (forall i | 0 <= i < |st.flight.outcomes| && i < |OfKind(st.flight.batch, Upserts)|
                     && OfKind(st.flight.batch, Upserts)[i].op == Upsert(p) ::
            st.flight.outcomes[i] == Vanished ==> Settled(c, st.vault, st.pd.debounced, st.pd.queue, p, None))
  }

  /** The queue on disk would settle the path as well. */
  predicate SavedOk(c: Config, st: State, p: Path) {
    st.pd.saved != st.pd.queue ==> Settled(c, st.vault, st.pd.debounced, st.pd.saved, p, Copy(st.server, p))
  }

  ghost predicate PathOk(c: Config, st: State, p: Path) {
    && Settled(c, st.vault, st.pd.debounced, Owed(st.flight) + st.pd.queue, p, Copy(st.server, p))
    && ReadsOk(c, st, p)
    && SavedOk(c, st, p)
  }

  ghost predicate UpsertsSynced(c: Config, items: seq<Item>) {
    forall x :: x in items && x.op.Upsert? ==> c.Synced(x.op.path)
  }

  ghost predicate FlightOk(st: State) {
    match st.flight
    case Idle => st.pd.saved == st.pd.queue
    case Renaming(batch) => batch != []
    case Deleting(batch, l) => batch != [] && Classifies(batch, l, {Renames})
    case Building(batch, l, outcomes, payloads) =>
      && batch != [] && Classifies(batch, l, {Renames, Deletes})
      && |outcomes| <= |OfKind(batch, Upserts)|
      && (forall p :: p in payloads ==> p in Touched(OfKind(batch, Upserts)))
      && forall i :: 0 <= i < |outcomes| && outcomes[i] == Built
          ==> OpPaths(OfKind(batch, Upserts)[i].op) <= payloads.Keys
  }

  ghost predicate Shape(c: Config, st: State) {
    && FlightOk(st)
    && UpsertsSynced(c, st.pd.queue)
    && (forall p :: p in st.pd.debounced ==> c.Synced(p))
    && (!st.flight.Idle? ==>
          && UpsertsSynced(c, st.flight.batch)
          && (st.pd.saved == st.pd.queue || st.pd.saved == st.flight.batch + st.pd.queue))
  }

  ghost predicate Inv(c: Config, st: State) {
    Shape(c, st) && forall p :: p !in st.stale ==> PathOk(c, st, p)
  }

  // ---- looking at one path ----------------------------------------------------------

  lemma {:induction false} LastKind(items: seq<Item>, p: Path, hard: bool)
    ensures var r := Last(items, p, hard);
            r.Some? ==> Touches(r.value, p, hard) && (exists x :: x in items && x.op == r.value)
  {
    var k := LastAt(items, p, hard);
    if Last(items, p, hard).Some? {
      assert items[k] in items;
    }
  }

  lemma {:induction false} TouchedLast(items: seq<Item>, p: Path)
    ensures p in Touched(items) <==> Last(items, p, false).Some?
    ensures (forall x :: x in items ==> !x.op.Upsert?) ==> Last(items, p, true) == Last(items, p, false)
  {
    LastNone(items, p, false);
    if p in Touched(items) {
      var i :| 0 <= i < |items| && p in OpPaths(items[i].op);
      assert Touches(items[i].op, p, false);
    }
    if forall x :: x in items ==> !x.op.Upsert? {
      HardOnly(items, p);
    }
  }

  lemma {:induction false} HardOnly(items: seq<Item>, p: Path)
    requires forall x :: x in items ==> !x.op.Upsert?
    ensures Last(items, p, true) == Last(items, p, false)
  {
    if items != [] {
      assert items[|items| - 1] in items;
      HardOnly(items[..|items| - 1], p);
    }
  }

  /** Where a delete or rename of the path is pending, the server's copy does not matter. */
  lemma {:induction false} CopyIrrelevant(c: Config, vault: map<Path, File>, debounced: set<Path>, items: seq<Item>,
        p: Path, copy: Option<Content>, copy': Option<Content>)
    requires Settled(c, vault, debounced, items, p, copy)
    requires Last(items, p, true).Some? || copy == copy'
    ensures Settled(c, vault, debounced, items, p, copy')
  {
    LastNone(items, p, true);
    LastNone(items, p, false);
    if Last(items, p, true).Some? {
      var i :| 0 <= i < |items| && Touches(items[i].op, p, true);
      assert Touches(items[i].op, p, false);
    }
  }

  // ---- vault events -------------------------------------------------------------------

  lemma {:induction false} ViewConcat(a: seq<Item>, b: seq<Item>, p: Path)
    ensures Last(a + b, p, false) == if Last(b, p, false).Some? then Last(b, p, false) else Last(a, p, false)
    ensures Last(a + b, p, true) == if Last(b, p, true).Some? then Last(b, p, true) else Last(a, p, true)
  {
    LastConcat(a, b, p, false);
    LastConcat(a, b, p, true);
  }

  /** An edit leaves a wanted path debounced or upserted last. */
  lemma EditKeepsSettled(c: Config, vault: map<Path, File>, pd: Pending, q: Path, f: File, now: int,
        a: seq<Item>, p: Path, copy: Option<Content>)
    requires Settled(c, vault, pd.debounced, a + pd.queue, p, copy)
    ensures var pd' := OnEdit(c, pd, q, now);
            Settled(c, vault[q := f], pd'.debounced, a + pd'.queue, p, copy)
  {
    assert p != q || !c.Synced(q) ==> Want(c, vault[q := f], p) == Want(c, vault, p);
    if c.Synced(q) && !c.markdown(q) {
      ViewConcat(a, pd.queue, p);
      ViewConcat(a, EnqueueUpsert(pd.queue, q, now), p);
      EnqueueUpsertEffect(pd.queue, q, now, p);
    }
  }

  lemma DebounceKeepsSettled(c: Config, vault: map<Path, File>, pd: Pending, q: Path, now: int, a: seq<Item>,
        p: Path, copy: Option<Content>)
    requires Settled(c, vault, pd.debounced, a + pd.queue, p, copy)
    ensures var pd' := OnDebounce(pd, q, now);
            Settled(c, vault, pd'.debounced, a + pd'.queue, p, copy)
  {
    ViewConcat(a, pd.queue, p);
    ViewConcat(a, EnqueueUpsert(pd.queue, q, now), p);
    EnqueueUpsertEffect(pd.queue, q, now, p);
  }

  lemma RemoveKeepsSettled(c: Config, vault: map<Path, File>, pd: Pending, q: Path, now: int, a: seq<Item>,
        p: Path, copy: Option<Content>)
    requires Settled(c, vault, pd.debounced, a + pd.queue, p, copy)
    ensures var pd' := OnDelete(c, pd, q, now);
            Settled(c, vault - {q}, pd'.debounced, a + pd'.queue, p, copy)
  {
    assert p != q || !c.tracked(q) ==> Want(c, vault - {q}, p) == Want(c, vault, p);
    if c.tracked(q) {
      ViewConcat(a, pd.queue, p);
      ViewConcat(a, EnqueueDelete(pd.queue, q, now), p);
      EnqueueDeleteEffect(pd.queue, q, now, p, false);
      EnqueueDeleteEffect(pd.queue, q, now, p, true);
    }
  }

  /** A move settles both of its paths, unless it takes a synced file to a name that is not tracked. */
  lemma MoveKeepsSettled(c: Config, vault: map<Path, File>, pd: Pending, o: Path, n: Path, now: int,
        a: seq<Item>, p: Path, copy: Option<Content>)
    requires o in vault && n !in vault
    requires Settled(c, vault, pd.debounced, a + pd.queue, p, copy)
    requires !(p == o && c.Synced(o) && !c.tracked(n))
    ensures var pd' := OnRename(c, pd, o, n, now);
            Settled(c, (vault - {o})[n := vault[o]], pd'.debounced, a + pd'.queue, p, copy)
  {
    if c.tracked(n) && c.excluded(n) {
      MoveAwaySettled(c, vault, pd, o, n, now, a, p, copy);
    } else if c.tracked(n) {
      RenameSettled(c, vault, pd, o, n, now, a, p, copy);
    }
  }

  /** A move into an excluded place deletes the old path. */
  lemma MoveAwaySettled(c: Config, vault: map<Path, File>, pd: Pending, o: Path, n: Path, now: int, a: seq<Item>,
        p: Path, copy: Option<Content>)
    requires o in vault && n !in vault && c.excluded(n)
    requires Settled(c, vault, pd.debounced, a + pd.queue, p, copy)
    ensures Settled(c, (vault - {o})[n := vault[o]], pd.debounced, a + EnqueueDelete(pd.queue, o, now), p, copy)
  {
    ViewConcat(a, pd.queue, p);
    ViewConcat(a, EnqueueDelete(pd.queue, o, now), p);
    EnqueueDeleteEffect(pd.queue, o, now, p, false);
    EnqueueDeleteEffect(pd.queue, o, now, p, true);
  }

  lemma RenameSettled(c: Config, vault: map<Path, File>, pd: Pending, o: Path, n: Path, now: int, a: seq<Item>,
        p: Path, copy: Option<Content>)
    requires o in vault && n !in vault && c.Synced(n)
    requires Settled(c, vault, pd.debounced, a + pd.queue, p, copy)
    ensures Settled(c, (vault - {o})[n := vault[o]], pd.debounced, a + EnqueueRename(pd.queue, o, n, now), p, copy)
  {
    ViewConcat(a, pd.queue, p);
    ViewConcat(a, EnqueueRename(pd.queue, o, n, now), p);
    EnqueueRenameEffect(pd.queue, o, n, now, p, false);
    EnqueueRenameEffect(pd.queue, o, n, now, p, true);
  }

  /** Every vault event keeps every path settled that it does not make stale, whatever is ahead of
      the queue and whatever copy the queue will run on. */
  lemma VaultEventKeepsSettled(c: Config, vault: map<Path, File>, pd: Pending, ev: Event, now: int,
        a: seq<Item>, p: Path, copy: Option<Content>)
    requires IsVaultEvent(ev)
    requires ev.Move? ==> ev.oldPath in vault && ev.newPath !in vault
    requires Settled(c, vault, pd.debounced, a + pd.queue, p, copy)
    requires p !in Missed(c, vault, ev)
    ensures var pd' := PendingAfter(c, pd, ev, now);
            Settled(c, VaultAfter(vault, ev), pd'.debounced, a + pd'.queue, p, copy)
  {
    match ev
    case Create(q, f) => EditKeepsSettled(c, vault, pd, q, f, now, a, p, copy);
    case Modify(q, f) => EditKeepsSettled(c, vault, pd, q, f, now, a, p, copy);
    case Remove(q) => RemoveKeepsSettled(c, vault, pd, q, now, a, p, copy);
    case Move(o, n) => MoveKeepsSettled(c, vault, pd, o, n, now, a, p, copy);
    case MetadataChanged(q) => DebounceKeepsSettled(c, vault, pd, q, now, a, p, copy);
    case DebounceFires(q) => DebounceKeepsSettled(c, vault, pd, q, now, a, p, copy);
    case Unseen(v) =>
  }

  lemma EnqueueSynced(c: Config, items: seq<Item>, ops: set<Op>, more: seq<Item>)
    requires UpsertsSynced(c, items) && UpsertsSynced(c, more)
    ensures UpsertsSynced(c, Without(items, ops) + more)
  {
    WithoutItems(items, ops);
  }

  /** What an event leaves of the engine: only upserts of synced paths, and a saved queue that is either the
      new queue or untouched. */
  lemma EventKeepsPending(c: Config, pd: Pending, ev: Event, now: int)
    requires IsVaultEvent(ev) && UpsertsSynced(c, pd.queue) && (forall p :: p in pd.debounced ==> c.Synced(p))
    requires ev.DebounceFires? ==> ev.path in pd.debounced
    ensures var pd' := PendingAfter(c, pd, ev, now);
            && UpsertsSynced(c, pd'.queue) && (forall p :: p in pd'.debounced ==> c.Synced(p))
            && (pd'.saved == pd'.queue || (pd'.queue == pd.queue && pd'.saved == pd.saved))
  {
    match ev
    case Create(q, _) => UpsertSynced(c, pd.queue, q, now);
    case Modify(q, _) => UpsertSynced(c, pd.queue, q, now);
    case Remove(q) => EnqueueSynced(c, pd.queue, {Upsert(q), Delete(q)}, [Item(Delete(q), now, 0)]);
    case Move(o, n) =>
      EnqueueSynced(c, pd.queue, {Upsert(o), Delete(o)}, [Item(Delete(o), now, 0)]);
      if c.Synced(n) {
        EnqueueSynced(c, pd.queue, {Upsert(o), Upsert(n), Rename(o, n)},
          [Item(Rename(o, n), now, 0), Item(Upsert(n), now, 0)]);
      }
    case MetadataChanged(q) => UpsertSynced(c, pd.queue, q, now);
    case DebounceFires(q) => UpsertSynced(c, pd.queue, q, now);
    case Unseen(_) =>
  }

  lemma UpsertSynced(c: Config, items: seq<Item>, q: Path, now: int)
    requires UpsertsSynced(c, items)
    ensures c.Synced(q) ==> UpsertsSynced(c, EnqueueUpsert(items, q, now))
  {
    if c.Synced(q) {
      EnqueueSynced(c, items, {Upsert(q)}, [Item(Upsert(q), now, 0)]);
    }
  }

  lemma VaultEventKeepsShape(c: Config, st: State, ev: Event, now: int)
    requires Shape(c, st) && Enabled(c, st, ev) && IsVaultEvent(ev)
    ensures Shape(c, Next(c, st, ev, now))
    ensures var pd' := Next(c, st, ev, now).pd;
      pd'.saved == pd'.queue || (pd'.queue == st.pd.queue && pd'.saved == st.pd.saved)
  {
    EventKeepsPending(c, st.pd, ev, now);
  }

  lemma VaultEventKeepsInv(c: Config, st: State, ev: Event, now: int)
    requires Inv(c, st) && Enabled(c, st, ev) && IsVaultEvent(ev)
    ensures Inv(c, Next(c, st, ev, now))
  {
    var st' := Next(c, st, ev, now);
    VaultEventKeepsShape(c, st, ev, now);
    forall p | p !in st'.stale ensures PathOk(c, st', p) {
      if p in Renewed(c, st.vault, ev) {
        RenewedIsOk(c, st, ev, now, p);
      } else {
        assert PathOk(c, st, p);
        VaultEventKeepsSettled(c, st.vault, st.pd, ev, now, Owed(st.flight), p, Copy(st.server, p));
        VaultEventKeepsReads(c, st, ev, now, p);
        VaultEventKeepsSaved(c, st, ev, now, p);
      }
    }
  }

  /** A path for which the handler enqueues is settled on any server copy and behind any operations. */
  lemma RenewedSettles(c: Config, vault: map<Path, File>, pd: Pending, ev: Event, now: int, a: seq<Item>, p: Path,
        copy: Option<Content>)
    requires p in Renewed(c, vault, ev) && (ev.Move? ==> ev.oldPath in vault && ev.newPath !in vault)
    ensures var pd' := PendingAfter(c, pd, ev, now);
            pd'.saved == pd'.queue && Settled(c, VaultAfter(vault, ev), pd'.debounced, a + pd'.queue, p, copy)
  {
    if ev.Move? {
      MoveRenews(c, vault, pd, ev.oldPath, ev.newPath, now, a, p, copy);
    } else {
      ViewConcat(a, PendingAfter(c, pd, ev, now).queue, p);
      EnqueueDeleteEffect(pd.queue, p, now, p, true);
      EnqueueUpsertEffect(pd.queue, p, now, p);
    }
  }

  lemma MoveRenews(c: Config, vault: map<Path, File>, pd: Pending, o: Path, n: Path, now: int, a: seq<Item>, p: Path,
        copy: Option<Content>)
    requires o in vault && n !in vault && c.tracked(n) && (p == o || (p == n && !c.excluded(n)))
    ensures var pd' := OnRename(c, pd, o, n, now);
            pd'.saved == pd'.queue
            && Settled(c, (vault - {o})[n := vault[o]], pd'.debounced, a + pd'.queue, p, copy)
  {
    ViewConcat(a, OnRename(c, pd, o, n, now).queue, p);
    if c.excluded(n) {
      EnqueueDeleteEffect(pd.queue, o, now, p, true);
    } else {
      EnqueueRenameEffect(pd.queue, o, n, now, p, false);
      EnqueueRenameEffect(pd.queue, o, n, now, p, true);
    }
  }

  lemma RenewedIsOk(c: Config, st: State, ev: Event, now: int, p: Path)
    requires Enabled(c, st, ev) && IsVaultEvent(ev) && p in Renewed(c, st.vault, ev)
    ensures PathOk(c, Next(c, st, ev, now), p)
  {
    var st' := Next(c, st, ev, now);
    EmptyFront(st'.pd.queue);
    RenewedSettles(c, st.vault, st.pd, ev, now, Owed(st.flight), p, Copy(st.server, p));
    RenewedSettles(c, st.vault, st.pd, ev, now, [], p, None);
    if st.flight.Building? && p in st.flight.payloads {
      RenewedSettles(c, st.vault, st.pd, ev, now, [], p, Some(st.flight.payloads[p].content));
    }
  }

  lemma EmptyFront(items: seq<Item>)
    ensures [] + items == items
  {}

  lemma VaultEventKeepsReads(c: Config, st: State, ev: Event, now: int, p: Path)
    requires Enabled(c, st, ev) && IsVaultEvent(ev) && ReadsOk(c, st, p)
    requires p !in Missed(c, st.vault, ev)
    ensures ReadsOk(c, Next(c, st, ev, now), p)
  {
    var st' := Next(c, st, ev, now);
    EmptyFront(st.pd.queue);
    EmptyFront(st'.pd.queue);
    if st.flight.Building? {
      if p in st.flight.payloads {
        VaultEventKeepsSettled(c, st.vault, st.pd, ev, now, [], p, Some(st.flight.payloads[p].content));
      }
      if Settled(c, st.vault, st.pd.debounced, st.pd.queue, p, None) {
        VaultEventKeepsSettled(c, st.vault, st.pd, ev, now, [], p, None);
      }
    }
  }

  lemma VaultEventKeepsSaved(c: Config, st: State, ev: Event, now: int, p: Path)
    requires Shape(c, st) && Enabled(c, st, ev) && IsVaultEvent(ev) && SavedOk(c, st, p)
    requires p !in Missed(c, st.vault, ev)
    ensures SavedOk(c, Next(c, st, ev, now), p)
  {
    VaultEventKeepsShape(c, st, ev, now);
    var st' := Next(c, st, ev, now);
    if st'.pd.saved != st'.pd.queue {
      VaultEventKeepsSettled(c, st.vault, st.pd, ev, now, st.flight.batch, p, Copy(st.server, p));
    }
  }
}
