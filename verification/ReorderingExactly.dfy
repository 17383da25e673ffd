/** When the phase order shows: exactly the debounced paths whose last queued operation removes them while
    an upsert of them stands in the same batch (obsidian/src/sync-engine.ts:290-397). */
module ReorderingExactly {
  import opened Common
  import opened QueueItems
  import opened Batches
  import opened Draining
  import opened SyncStates
  import opened SyncSafety
  import opened SyncRequests
  import opened SyncUpserts
  import opened SyncTheorem
  import opened SyncTails
  import opened SyncRuns
  import opened SyncDivergence
  import opened Reordering

  predicate HasUpsert(items: seq<Item>, p: Path) {
    exists i :: 0 <= i < |items| && items[i].op == Upsert(p)
  }

  /** The last batch that touches the path ends by removing it, but also has an upsert of it, which the
      phase order moves behind the removal. */
  predicate Overtaken(items: seq<Item>, size: nat, p: Path)
    requires size > 0
    decreases |items|
  {
    items != [] &&
    var k := Min(size, |items|);
    if p in Touched(items[k..]) then Overtaken(items[k..], size, p)
    else RemovedBy(Last(items[..k], p, false), p) && HasUpsert(items[..k], p)
  }

  // ---- one batch in phases -----------------------------------------------------------------------

  lemma UpsertsTouch(batch: seq<Item>, p: Path)
    ensures p in Touched(OfKind(batch, Upserts)) <==> HasUpsert(batch, p)
  {
    var us := OfKind(batch, Upserts);
    UpsertsOnly(batch);
    KindItems(batch, Upserts);
    if HasUpsert(batch, p) {
      var i :| 0 <= i < |batch| && batch[i].op == Upsert(p);
      assert batch[i] in batch;
      TouchedItem(us, batch[i], p);
    }
    if p in Touched(us) {
      var i :| 0 <= i < |us| && p in OpPaths(us[i].op);
      assert us[i] in batch && us[i].op == Upsert(p);
    }
  }

  /** The batch's last operation on the path once the phases have reordered it. */
  lemma {:induction false} PhasedLast(batch: seq<Item>, p: Path)
    requires EndsWell(batch, p)
    ensures var last := Last(Phased(batch), p, false);
            && (p !in Touched(batch) ==> last.None?)
            && (HasUpsert(batch, p) ==> last == Some(Upsert(p)))
            && (p in Touched(batch) && !HasUpsert(batch, p) ==> RemovedBy(last, p))
  {
    var renames, deletes, us := OfKind(batch, Renames), OfKind(batch, Deletes), OfKind(batch, Upserts);
    KindItems(batch, Renames);
    KindItems(batch, Deletes);
    KindItems(batch, Upserts);
    ViewConcat(renames + deletes, us, p);
    ViewConcat(renames, deletes, p);
    UpsertsTouch(batch, p);
    UpsertsLast(us, p);
    TouchedLast(batch, p);
    TouchedLast(deletes, p);
    LastKind(deletes, p, false);
    LastKind(renames, p, false);
    if p in Touched(renames) { TouchedSubset(renames, batch, p); }
    if p in Touched(deletes) { TouchedSubset(deletes, batch, p); }
    TouchedLast(renames, p);
    if p in Touched(batch) && !HasUpsert(batch, p) && p !in Touched(deletes) {
      OnlyRenames(batch, p);
    }
  }

  lemma {:induction false} OnlyRenames(batch: seq<Item>, p: Path)
    requires !HasUpsert(batch, p) && p !in Touched(OfKind(batch, Deletes))
    ensures Last(OfKind(batch, Renames), p, false) == Last(batch, p, false)
  {
    KindItems(batch, Deletes);
    forall x | x in batch && Touches(x.op, p, false) ensures KindOf(x.op) == Renames {
      if x.op.Delete? {
        TouchedItem(OfKind(batch, Deletes), x, p);
      }
    }
    LastSelect(batch, op => KindOf(op) == Renames, p, false);
  }

  // ---- what each order leaves at a path of the vault -------------------------------------------------

  function VaultCopy(vault: map<Path, File>, p: Path): Option<Content> {
    if p in vault then Some(vault[p].content) else None
  }

  lemma {:induction false} InOrderLeaves(server: map<Path, Note>, items: seq<Item>, vault: map<Path, File>, p: Path)
    requires p in vault && EndsWell(items, p)
    ensures Copy(RunInOrder(server, items, vault), p)
            == if p !in Touched(items) then Copy(server, p)
               else if RemovedBy(Last(items, p, false), p) then None else VaultCopy(vault, p)
  {
    Fate(server, items, vault, p);
    TouchedLast(items, p);
  }

  lemma {:induction false} BatchLeaves(server: map<Path, Note>, batch: seq<Item>, vault: map<Path, File>, p: Path)
    requires p in vault && EndsWell(batch, p)
    ensures Copy(RunInOrder(server, Phased(batch), vault), p)
            == if p !in Touched(batch) then Copy(server, p)
               else if HasUpsert(batch, p) then VaultCopy(vault, p) else None
  {
    PhasedLast(batch, p);
    Fate(server, Phased(batch), vault, p);
    TouchedLast(batch, p);
    if HasUpsert(batch, p) {
      var i :| 0 <= i < |batch| && batch[i].op == Upsert(p);
      TouchedItem(batch, batch[i], p);
    }
  }

  /** The upsert that ends the path's operations is one of them. */
  lemma {:induction false} EndsWithUpsert(items: seq<Item>, p: Path)
    requires Last(items, p, false) == Some(Upsert(p))
    ensures HasUpsert(items, p)
  {
    var k := LastAt(items, p, false);
  }

  lemma {:induction false} PhasedLeaves(server: map<Path, Note>, items: seq<Item>, vault: map<Path, File>, size: nat,
        p: Path)
    requires size > 0 && p in vault && EndsWell(items, p)
    ensures Copy(DrainPhased(server, items, vault, size), p)
            == if p !in Touched(items) then Copy(server, p)
               else if RemovedBy(Last(items, p, false), p) && !Overtaken(items, size, p) then None
               else VaultCopy(vault, p)
    decreases |items|
  {
    if items != [] {
      var k := Min(size, |items|);
      var batch, rest := items[..k], items[k..];
      assert items == batch + rest;
      EndsWellConcat(batch, rest, p);
      TouchedConcat(batch, rest);
      ViewConcat(batch, rest, p);
      TouchedLast(rest, p);
      TouchedLast(batch, p);
      PhasedLeaves(RunInOrder(server, Phased(batch), vault), rest, vault, size, p);
      if p !in Touched(rest) {
        BatchLeaves(server, batch, vault, p);
        if Last(batch, p, false) == Some(Upsert(p)) { EndsWithUpsert(batch, p); }
      }
    }
  }

  lemma {:induction false} NotOvertaken(items: seq<Item>, size: nat, p: Path)
    requires size > 0 && !RemovedBy(Last(items, p, false), p)
    ensures !Overtaken(items, size, p)
    decreases |items|
  {
    if items != [] {
      var k := Min(size, |items|);
      assert items == items[..k] + items[k..];
      ViewConcat(items[..k], items[k..], p);
      TouchedLast(items[k..], p);
      if p in Touched(items[k..]) {
        NotOvertaken(items[k..], size, p);
      }
    }
  }

  lemma {:induction false} OvertakenHasUpsert(items: seq<Item>, size: nat, p: Path)
    requires size > 0 && Overtaken(items, size, p)
    ensures HasUpsert(items, p)
    decreases |items|
  {
    var k := Min(size, |items|);
    if p in Touched(items[k..]) {
      OvertakenHasUpsert(items[k..], size, p);
      var i :| 0 <= i < |items[k..]| && items[k..][i].op == Upsert(p);
      assert items[k + i].op == Upsert(p);
    } else {
      var i :| 0 <= i < k && items[..k][i].op == Upsert(p);
      assert items[i].op == Upsert(p);
    }
  }

  lemma {:induction false} OvertakenIsSynced(c: Config, items: seq<Item>, size: nat, p: Path)
    requires size > 0 && UpsertsSynced(c, items) && Overtaken(items, size, p)
    ensures c.Synced(p)
  {
    OvertakenHasUpsert(items, size, p);
    var i :| 0 <= i < |items| && items[i].op == Upsert(p);
    assert items[i] in items;
  }

  /** From every idle reachable state, a path that is not stale, debounced or not, ends with the same
      content in both orders if and only if it is not in the vault or not overtaken. */
  lemma {:induction false} ReorderingAgreesIff(c: Config, states: seq<State>, events: seq<(Event, int)>, k: nat,
        size: nat, p: Path)
    requires Run(c, states, events) && k < |states| && states[k].flight.Idle? && size > 0
    requires p !in states[k].stale
    ensures var st := states[k];
            Copy(DrainPhased(st.server, st.pd.queue, st.vault, size), p)
            == Copy(RunInOrder(st.server, st.pd.queue, st.vault), p)
            <==> !(p in st.vault && Overtaken(st.pd.queue, size, p))
  {
    var st := states[k];
    RunKeepsTails(c, states, events, k);
    assert PathOk(c, st, p) && TailsOk(st, p);
    EmptyFront(st.pd.queue);
    if Want(c, st.vault, p).None? {
      SettledRuns(c, st.server, st.pd.queue, st.vault, p);
      SettledDrains(c, st.server, st.pd.queue, st.vault, size, p);
      if p in st.vault && Overtaken(st.pd.queue, size, p) {
        OvertakenIsSynced(c, st.pd.queue, size, p);
      }
    } else {
      InOrderLeaves(st.server, st.pd.queue, st.vault, p);
      PhasedLeaves(st.server, st.pd.queue, st.vault, size, p);
      if !RemovedBy(Last(st.pd.queue, p, false), p) {
        NotOvertaken(st.pd.queue, size, p);
      }
      if p !in Touched(st.pd.queue) {
        TouchedLast(st.pd.queue, p);
      }
    }
  }

  // ---- a debounced path that is overtaken -----------------------------------------------------------

  /** The state when the only file of the batch has been read. */
  function ReadState(st: State, x: Item, p: Path): State
    requires p in st.vault
  {
    State(st.vault, st.server, Pending(st.pd.debounced, [], st.pd.saved),
          Building([x], Lists([], [], []), [Built], map[p := st.vault[p]]), st.stale)
  }

  lemma UpToRead(c: Config, st: State, x: Item, p: Path, now: int) returns (evs: Events)
    requires st.flight.Idle? && st.pd.queue == [x] && x.op == Upsert(p) && p in st.vault && c.batchSize > 0
    ensures Feasible(c, st, evs) && After(c, st, evs) == ReadState(st, x, p)
  {
    OneUpsertKinds(x);
    TakeOne(c, st, x, now);
    OneRead(x, p, st.vault);
    assert Taken(st.pd.queue, c.batchSize) == [x];
    FrontAnswered(c, st, [], [], now);
    evs := FrontEvents([x], st.vault, [], [], now);
    assert SkippedRenames([], [], Success) == {} && st.stale + {} == st.stale;
    assert HardEffects(st.server, [], []) == st.server && Lists([] + [], [], []) == Lists([], [], []);
    assert st.pd.queue[Min(c.batchSize, 1)..] == [];
  }

  /** The Markdown note's metadata changes, and its upsert is taken and read. */
  lemma MetadataThenRead(c: Config, st: State, p: Path, now: int) returns (evs: Events)
    requires Quiet(st) && p in st.vault && c.Synced(p) && c.markdown(p) && c.batchSize > 0
    ensures Feasible(c, st, evs)
    ensures After(c, st, evs)
            == State(st.vault, st.server, Pending({}, [], [Item(Upsert(p), now, 0)]),
                     Building([Item(Upsert(p), now, 0)], Lists([], [], []), [Built], map[p := st.vault[p]]),
                     st.stale - {p})
  {
    var x := Item(Upsert(p), now, 0);
    FirstUpsert(p, now);
    var changed := Next(c, st, MetadataChanged(p), now);
    assert changed == st.(pd := Pending({}, [x], [x]), stale := st.stale - {p}) by {
      assert st.stale - {p} + {} == st.stale - {p} && st.pd.debounced - {p} == {};
    }
    var front := UpToRead(c, changed, x, p, now);
    evs := [(MetadataChanged(p), now)] + front;
    AfterStep(c, st, MetadataChanged(p), now, changed, front, ReadState(changed, x, p));
  }

  /** The request fails for want of a connection: the upsert goes back in front of what was queued since. */
  lemma StoppedRequest(c: Config, st: State, x: Item, p: Path, f: File, synced: map<Path, Effect>, now: int)
    requires st.flight == Building([x], Lists([], [], []), [Built], map[p := f]) && x.op == Upsert(p)
    requires x.attempt < c.maxAttempts && synced == map[p := Skipped]
    ensures Enabled(c, st, SyncReply(Raised(TransientError), synced))
    ensures var next := Next(c, st, SyncReply(Raised(TransientError), synced), now);
            && next.vault == st.vault && next.server == st.server && next.flight == Idle
            && next.pd == st.pd.Put([Retried(x)] + st.pd.queue)
  {
    OneUpsertKinds(x);
    StoppedBack(x, c.maxAttempts);
    SkippedChangesNothing(st.server, p);
    assert PlausibleSync(st.flight.payloads, synced);
    NotesReplied(c, st, Raised(TransientError), synced, now);
  }

  lemma StoppedBack(x: Item, max: nat)
    requires x.attempt < max
    ensures PutBack([x], UpsertPhase(NoLists, [x], [Built], Raised(TransientError)).lists, max) == [Retried(x)]
  {
    OneStopped(x);
    OneLeft(x, Lists([], [x], []), max);
  }

  lemma CreateDebounces(c: Config, st: State, p: Path, f: File, now: int)
    requires p !in st.vault && c.Synced(p) && c.markdown(p)
    ensures var next := Next(c, st, Create(p, f), now);
            && next.vault == st.vault[p := f] && next.server == st.server && next.flight == st.flight
            && next.stale == st.stale && next.pd == st.pd.(debounced := st.pd.debounced + {p})
  {
    assert st.stale - {} + {} == st.stale;
  }

  /** A delete queued since decides the path, so the failure does not make it stale. */
  lemma {:induction false} DecidedIsNotStale(c: Config, st: State, reply: Reply, synced: map<Path, Effect>, now: int,
        p: Path)
    requires Enabled(c, st, SyncReply(reply, synced)) && p !in st.stale
    requires Want(c, st.vault, p).None? && Last(st.pd.queue, p, true).Some?
    ensures p !in Next(c, st, SyncReply(reply, synced), now).stale
  {}

  lemma StoppedThenCreated(c: Config, st: State, x: Item, d: Item, p: Path, g: File, f: File, now: int)
    returns (evs: Events)
    requires st.flight == Building([x], Lists([], [], []), [Built], map[p := g]) && x.op == Upsert(p)
    requires st.pd.queue == [d] && d.op == Delete(p) && x.attempt < c.maxAttempts && p !in st.stale
    requires p !in st.vault && c.Synced(p) && c.markdown(p)
    ensures Feasible(c, st, evs)
    ensures var last := After(c, st, evs);
            && last.vault == st.vault[p := f] && last.server == st.server && last.flight.Idle? && p !in last.stale
            && last.pd.queue == [Retried(x), d] && p in last.pd.debounced
  {
    var synced := map[p := Skipped];
    var ev := SyncReply(Raised(TransientError), synced);
    StoppedRequest(c, st, x, p, g, synced, now);
    assert [d][0] == d && Last([d], p, true) == Some(Delete(p));
    DecidedIsNotStale(c, st, Raised(TransientError), synced, now, p);
    var mid := Next(c, st, ev, now);
    CreateDebounces(c, mid, p, f, now);
    AfterOne(c, mid, Create(p, f), now);
    AfterStep(c, st, ev, now, mid, [(Create(p, f), now)], Next(c, mid, Create(p, f), now));
    evs := [(ev, now)] + [(Create(p, f), now)];
    assert [Retried(x)] + [d] == [Retried(x), d];
  }

  lemma OneStopped(x: Item)
    ensures UpsertPhase(NoLists, [x], [Built], Raised(TransientError)) == BatchResult(Lists([], [x], []), true)
  {
    ReadOfOne(x);
    assert [Built][0] == Built;
  }

  /** The phase order does change meaning in a reachable state: a note whose metadata changed is read for
      its request, removed while the request is under way, put back because the connection failed, and
      created again. The note is debounced and not stale, and the queue is its upsert followed by its
      delete. In that order it ends absent; drained in phases it ends present. */
  lemma DebouncedPathIsOvertaken(c: Config, st: State, p: Path, f: File, now: int) returns (evs: Events)
    requires Quiet(st) && p in st.vault && c.Synced(p) && c.markdown(p) && c.batchSize > 0 && c.maxAttempts > 0
    ensures Feasible(c, st, evs)
    ensures var last := After(c, st, evs);
            && last.flight.Idle? && p !in last.stale && p in last.pd.debounced && p in last.vault
            && Overtaken(last.pd.queue, 15, p)
            && p !in RunInOrder(last.server, last.pd.queue, last.vault)
            && p in DrainPhased(last.server, last.pd.queue, last.vault, 15)
  {
    var x, d := Item(Upsert(p), now, 0), Item(Delete(p), now, 0);
    var front := MetadataThenRead(c, st, p, now);
    var s1 := After(c, st, front);
    FirstDelete(p, now);
    RemoveQueues(c, s1, p, now);
    var s2 := Next(c, s1, Remove(p), now);
    var tail := StoppedThenCreated(c, s2, x, d, p, st.vault[p], f, now);
    var last := After(c, s2, tail);
    AfterStep(c, s1, Remove(p), now, s2, tail, last);
    AfterConcat(c, st, front, [(Remove(p), now)] + tail);
    evs := front + ([(Remove(p), now)] + tail);
    ReorderingChangesMeaning(last.server, last.vault, Retried(x), d, p);
    UpsertThenDelete(Retried(x), d, p);
  }

  lemma {:induction false} UpsertThenDelete(u: Item, d: Item, p: Path)
    requires u.op == Upsert(p) && d.op == Delete(p)
    ensures Overtaken([u, d], 15, p)
  {
    var items := [u, d];
    assert items[..2] == items && items[2..] == [];
    assert items[0].op == Upsert(p) && items[1].op == Delete(p);
  }
}
