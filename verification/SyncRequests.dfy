/** The drain loop's steps keep the sync invariant: taking a batch, the three requests with any
    outcome, and putting back what failed. */
module SyncRequests {
  import opened Common
  import opened QueueItems
  import opened Batches
  import opened Draining
  import opened SyncStates
  import opened SyncSafety

  // ---- filters seen from one path --------------------------------------------------

  lemma {:induction false} SelectKeepsLast(items: seq<Item>, keep: Op -> bool, p: Path, hard: bool)
    requires Last(items, p, hard).Some? ==> keep(Last(items, p, hard).value)
    ensures Last(Select(items, keep), p, hard) == Last(items, p, hard)
  {
    if items != [] {
      var init, it := items[..|items| - 1], items[|items| - 1];
      if Touches(it.op, p, hard) {
        LastAppend(Select(init, keep), it, p, hard);
      } else {
        SelectKeepsLast(init, keep, p, hard);
        if keep(it.op) {
          LastAppend(Select(init, keep), it, p, hard);
        }
      }
    }
  }

  lemma {:induction false} SelectSelect(items: seq<Item>, k1: Op -> bool, k2: Op -> bool)
    ensures Select(Select(items, k1), k2) == Select(items, op => k1(op) && k2(op))
  {
    if items != [] {
      var init, it := items[..|items| - 1], items[|items| - 1];
      SelectSelect(init, k1, k2);
      if k1(it.op) {
        assert (Select(init, k1) + [it])[..|Select(init, k1)|] == Select(init, k1);
      }
    }
  }

  /** Deletes (or upserts) of a batch, seen as a part of what is left after the renames. */
  lemma KindOfRest(batch: seq<Item>, k: Kind)
    requires k != Renames
    ensures OfKind(NotOfKind(batch, Renames), k) == OfKind(batch, k)
  {
    SelectSelect(batch, op => KindOf(op) != Renames, op => KindOf(op) == k);
    SelectAgree(batch, op => ((op: Op) => KindOf(op) != Renames)(op) && ((op: Op) => KindOf(op)
        == k)(op), op => KindOf(op) == k);
  }

  // ---- renames, then deletes, then upserts -------------------------------------------

  /** Moving the renames of a batch to its front keeps a settled path settled. */
  lemma RenamesFirst(c: Config, vault: map<Path, File>, debounced: set<Path>, batch: seq<Item>, q: seq<Item>,
        p: Path, copy: Option<Content>)
    requires Settled(c, vault, debounced, batch + q, p, copy)
    ensures Settled(c, vault, debounced, OfKind(batch, Renames) + (NotOfKind(batch, Renames) + q), p, copy)
  {
    var rs, ns := OfKind(batch, Renames), NotOfKind(batch, Renames);
    ViewConcat(batch, q, p);
    ViewConcat(rs, ns + q, p);
    ViewConcat(ns, q, p);
    KindItems(batch, Renames);
    LastKind(ns, p, true);
    var last, lastHard := Last(batch, p, false), Last(batch, p, true);
    if last.None? || last == Some(Upsert(p)) {
      SelectKeepsLast(batch, op => KindOf(op) != Renames, p, false);
    }
    if last.None? {
      SelectKeepsLast(batch, op => KindOf(op) == Renames, p, false);
    }
    if lastHard.None? || lastHard.value.Delete? {
      SelectKeepsLast(batch, op => KindOf(op) != Renames, p, true);
    }
    if lastHard.None? || lastHard.value.Rename? {
      SelectKeepsLast(batch, op => KindOf(op) == Renames, p, true);
    }
  }

  /** Moving the deletes of what is left in front of its upserts keeps a settled path settled. */
  lemma DeletesFirst(c: Config, vault: map<Path, File>, debounced: set<Path>, a: seq<Item>, batch: seq<Item>,
        q: seq<Item>, p: Path, copy: Option<Content>)
    requires Settled(c, vault, debounced, (a + NotOfKind(batch, Renames)) + q, p, copy)
    ensures Settled(c, vault, debounced, (a + OfKind(batch, Deletes)) + (OfKind(batch, Upserts) + q), p, copy)
  {
    var ns, ds, us := NotOfKind(batch, Renames), OfKind(batch, Deletes), OfKind(batch, Upserts);
    ViewConcat(a + ns, q, p);
    ViewConcat(a, ns, p);
    ViewConcat(a + ds, us + q, p);
    ViewConcat(a, ds, p);
    ViewConcat(us, q, p);
    KindItems(batch, Renames);
    KindItems(batch, Upserts);
    LastKind(ns, p, true);
    LastKind(us, p, true);
    KindOfRest(batch, Deletes);
    KindOfRest(batch, Upserts);
    if Last(ns, p, false).None? || Last(ns, p, false) == Some(Upsert(p)) {
      SelectKeepsLast(ns, op => KindOf(op) == Upserts, p, false);
    }
    if Last(ns, p, false).None? {
      SelectKeepsLast(ns, op => KindOf(op) == Deletes, p, false);
    }
    SelectKeepsLast(ns, op => KindOf(op) == Deletes, p, true);
  }

  predicate RemovedBy(last: Option<Op>, p: Path) {
    last.Some? && Removes(last.value, p)
  }

  // ---- a request answered --------------------------------------------------------------

  lemma {:induction false} HardEffectsElsewhere(server: map<Path, Note>, items: seq<Item>,
        effects: seq<Effect>, p: Path)
    requires |items| == |effects| && forall x :: x in items ==> !x.op.Upsert?
    requires p !in Touched(items)
    ensures Copy(HardEffects(server, items, effects), p) == Copy(server, p)
  {
    if items != [] {
      var n := |items| - 1;
      assert items[n] in items;
      assert forall i :: 0 <= i < n ==> items[..n][i] == items[i];
      assert p !in Touched(items[..n]);
      assert p !in OpPaths(items[n].op);
      HardEffectsElsewhere(server, items[..n], effects[..n], p);
    }
  }

  /** The last delete or rename of a path that took effect leaves the path absent. */
  lemma {:induction false} HardEffectsRemove(server: map<Path, Note>, items: seq<Item>, effects: seq<Effect>, p: Path)
    requires |items| == |effects| && forall x :: x in items ==> !x.op.Upsert?
    requires Last(items, p, false).Some? && Removes(Last(items, p, false).value, p)
    requires forall i :: 0 <= i < |items| && p in OpPaths(items[i].op) ==>
               !effects[i].Partial? && (items[i].op.Rename? && items[i].op.oldPath == p ==> effects[i].Done?)
    ensures p !in HardEffects(server, items, effects)
  {
    var n := |items| - 1;
    assert items[n] in items;
    if !Touches(items[n].op, p, false) {
      assert forall i :: 0 <= i < n ==> items[..n][i] == items[i] && effects[..n][i] == effects[i];
      HardEffectsRemove(server, items[..n], effects[..n], p);
    }
  }

  lemma RequestLists(l: Lists, items: seq<Item>, reply: Reply)
    ensures RequestPhase(l, items, reply).lists.retry == l.retry + Returned(items, reply)
  {}

  lemma TouchedItem(items: seq<Item>, x: Item, p: Path)
    requires x in items && p in OpPaths(x.op)
    ensures p in Touched(items)
  {
    var i :| 0 <= i < |items| && items[i] == x;
  }

  lemma TouchedSubset(items: seq<Item>, more: seq<Item>, p: Path)
    requires (forall x :: x in items ==> x in more) && p in Touched(items)
    ensures p in Touched(more)
  {
    var i :| 0 <= i < |items| && p in OpPaths(items[i].op);
    assert items[i] in items;
    TouchedItem(more, items[i], p);
  }

  lemma TouchedConcat(a: seq<Item>, b: seq<Item>)
    ensures Touched(a + b) == Touched(a) + Touched(b)
  {
    forall p ensures p in Touched(a + b) <==> p in Touched(a) || p in Touched(b) {
      TouchedLast(a, p);
      TouchedLast(b, p);
      TouchedLast(a + b, p);
      LastConcat(a, b, p, false);
    }
  }

  lemma ReturnedItems(items: seq<Item>, reply: Reply)
    ensures forall x :: x in Returned(items, reply) ==> x in items
  {
    if reply.Answered? {
      SelectItems(items, op => op in reply.failed);
    }
  }

  lemma RetryOfNone(items: seq<Item>, reply: Reply)
    ensures RequestPhase(NoLists, items, reply).lists.retry == Returned(items, reply)
  {
    RequestLists(NoLists, items, reply);
    EmptyFront(Returned(items, reply));
  }

  /** None of the path's deletes and renames came back: the last one, if it removes the path, did. */
  lemma {:induction false} RenamesGone(server: map<Path, Note>, items: seq<Item>, effects: seq<Effect>, reply: Reply,
        p: Path)
    requires (forall x :: x in items ==> !x.op.Upsert?) && Plausible(items, effects, reply)
    requires p !in SkippedRenames(items, effects, reply) && p !in Touched(Returned(items, reply))
    requires p !in Refused(items, reply)
    ensures p !in Touched(items) ==> Copy(HardEffects(server, items, effects), p) == Copy(server, p)
    ensures RemovedBy(Last(items, p, true), p) ==> p !in HardEffects(server, items, effects)
  {
    TouchedLast(items, p);
    if p !in Touched(items) {
      HardEffectsElsewhere(server, items, effects, p);
    } else {
      assert reply.Answered?;
      SelectItems(items, op => op in reply.failed);
      forall i | 0 <= i < |items| && p in OpPaths(items[i].op)
        ensures !effects[i].Partial? && (items[i].op.Rename? && items[i].op.oldPath == p ==> effects[i].Done?)
      {
        assert items[i] in items;
        if items[i].op in reply.failed {
          TouchedItem(Returned(items, reply), items[i], p);
        }
      }
      if RemovedBy(Last(items, p, true), p) {
        HardEffectsRemove(server, items, effects, p);
      }
    }
  }

  /** A list of upserts has no hard operation, and touches a path only by its upsert. */
  lemma {:induction false} UpsertsLast(us: seq<Item>, p: Path)
    requires forall x :: x in us ==> x.op.Upsert?
    ensures Last(us, p, true).None?
    ensures Last(us, p, false) == if p in Touched(us) then Some(Upsert(p)) else None
  {
    LastKind(us, p, true);
    LastKind(us, p, false);
    TouchedLast(us, p);
  }

  /** Only part of the renames is put back: a wanted path stays settled, and so does an unwanted one that a later
      delete or rename decides; otherwise what is put back has to remove it, or it has to be gone. */
  lemma {:induction false} RenameBackIff(c: Config, st: State, renames: seq<Item>, x': seq<Item>, b: seq<Item>, p: Path,
        copy': Option<Content>)
    requires Settled(c, st.vault, st.pd.debounced, renames + b, p, Copy(st.server, p))
    requires (forall x :: x in renames ==> !x.op.Upsert?) && (forall x :: x in x' ==> x in renames)
    requires p !in Touched(renames) ==> copy' == Copy(st.server, p)
    ensures Settled(c, st.vault, st.pd.debounced, x' + b, p, copy')
            <==> || Want(c, st.vault, p).Some? || Last(b, p, true).Some?
                 || if p in Touched(x') then !Restores(x', p) else copy'.None?
  {
    ViewConcat(renames, b, p);
    ViewConcat(x', b, p);
    TouchedLast(renames, p);
    TouchedLast(x', p);
    LastKind(renames, p, false);
    LastKind(b, p, true);
    LastNone(b, p, true);
    LastNone(b, p, false);
    if p in Touched(x') { TouchedSubset(x', renames, p); }
  }

  /** What a rename request that does not stop leaves of a path, whatever its reply and effects. */
  lemma {:induction false} RenamesBack(c: Config, st: State, reply: Reply, effects: seq<Effect>, p: Path)
    requires st.flight.Renaming? && PathOk(c, st, p) && Plausible(OfKind(st.flight.batch, Renames), effects, reply)
    requires forall x :: x in OfKind(st.flight.batch, Renames) ==> !x.op.Upsert?
    ensures var batch, q := st.flight.batch, st.pd.queue;
            var renames, rest := OfKind(batch, Renames), NotOfKind(batch, Renames);
            var x', server' := Returned(renames, reply), HardEffects(st.server, renames, effects);
            Settled(c, st.vault, st.pd.debounced, (x' + rest) + q, p, Copy(server', p))
            <==> || Want(c, st.vault, p).Some? || Last(rest + q, p, true).Some?
                 || if p in Touched(x') then !Restores(x', p) else p !in server'
  {
    var batch, q := st.flight.batch, st.pd.queue;
    var renames, rest := OfKind(batch, Renames), NotOfKind(batch, Renames);
    var x' := Returned(renames, reply);
    RenamesFirst(c, st.vault, st.pd.debounced, batch, q, p, Copy(st.server, p));
    assert (x' + rest) + q == x' + (rest + q);
    ReturnedItems(renames, reply);
    if p !in Touched(renames) {
      HardEffectsElsewhere(st.server, renames, effects, p);
    }
    RenameBackIff(c, st, renames, x', rest + q, p, Copy(HardEffects(st.server, renames, effects), p));
  }

  /** An unwanted path of which nothing is put back is gone, unless a rename of it was skipped or dropped. */
  lemma {:induction false} RenamesRemove(c: Config, st: State, reply: Reply, effects: seq<Effect>, p: Path)
    requires st.flight.Renaming? && PathOk(c, st, p) && Plausible(OfKind(st.flight.batch, Renames), effects, reply)
    requires forall x :: x in OfKind(st.flight.batch, Renames) ==> !x.op.Upsert?
    requires p !in Refused(OfKind(st.flight.batch, Renames), reply)
    requires p !in SkippedRenames(OfKind(st.flight.batch, Renames), effects, reply)
    requires Want(c, st.vault, p).None? && Last(NotOfKind(st.flight.batch, Renames) + st.pd.queue, p, true).None?
    requires p !in Touched(Returned(OfKind(st.flight.batch, Renames), reply))
    ensures p !in HardEffects(st.server, OfKind(st.flight.batch, Renames), effects)
  {
    var renames, rest := OfKind(st.flight.batch, Renames), NotOfKind(st.flight.batch, Renames);
    RenamesFirst(c, st.vault, st.pd.debounced, st.flight.batch, st.pd.queue, p, Copy(st.server, p));
    ViewConcat(renames, rest + st.pd.queue, p);
    TouchedLast(renames, p);
    RenamesGone(st.server, renames, effects, reply, p);
  }

  /** A rename request that skips and drops nothing of a path leaves it unsettled exactly by tearing it. */
  lemma {:induction false} RenamesTear(c: Config, st: State, reply: Reply, effects: seq<Effect>, p: Path)
    requires st.flight.Renaming? && PathOk(c, st, p) && Plausible(OfKind(st.flight.batch, Renames), effects, reply)
    requires forall x :: x in OfKind(st.flight.batch, Renames) ==> !x.op.Upsert?
    requires p !in Refused(OfKind(st.flight.batch, Renames), reply)
    requires p !in SkippedRenames(OfKind(st.flight.batch, Renames), effects, reply)
    ensures var batch := st.flight.batch;
            var renames := OfKind(batch, Renames);
            Settled(c, st.vault, st.pd.debounced, (Returned(renames, reply) + NotOfKind(batch, Renames)) + st.pd.queue,
                    p, Copy(HardEffects(st.server, renames, effects), p))
            <==> !(Want(c, st.vault, p).None? && Last(NotOfKind(batch, Renames) + st.pd.queue, p, true).None?
                   && p in TornByRenames(st, reply))
  {
    var renames, later := OfKind(st.flight.batch, Renames), NotOfKind(st.flight.batch, Renames) + st.pd.queue;
    RenamesBack(c, st, reply, effects, p);
    if Want(c, st.vault, p).None? && Last(later, p, true).None? && p !in Touched(Returned(renames, reply)) {
      RenamesRemove(c, st, reply, effects, p);
    }
  }

  lemma NoRenamesSkipped(items: seq<Item>, effects: seq<Effect>, reply: Reply)
    requires |items| == |effects| && forall x :: x in items ==> x.op.Delete?
    ensures SkippedRenames(items, effects, reply) == {}
  {
    forall i | 0 <= i < |items| ensures !items[i].op.Rename? {
      assert items[i] in items;
    }
  }

  lemma {:induction false} DeletesRemove(deletes: seq<Item>, p: Path)
    requires forall x :: x in deletes ==> x.op.Delete?
    ensures Last(deletes, p, true) == Last(deletes, p, false)
    ensures Last(deletes, p, true) == if p in Touched(deletes) then Some(Delete(p)) else None
  {
    TouchedLast(deletes, p);
    LastKind(deletes, p, true);
  }

  lemma {:induction false} RenamesKeepPath(c: Config, st: State, reply: Reply, effects: seq<Effect>, now: int, p: Path)
    requires Enabled(c, st, RenameReply(reply, effects)) && PathOk(c, st, p)
    requires forall x :: x in OfKind(st.flight.batch, Renames) ==> !x.op.Upsert?
    requires !RequestPhase(NoLists, OfKind(st.flight.batch, Renames), reply).stop
    requires p !in Next(c, st, RenameReply(reply, effects), now).stale
    ensures var batch := st.flight.batch;
            var renames := OfKind(batch, Renames);
            Settled(c, st.vault, st.pd.debounced, (Returned(renames, reply) + NotOfKind(batch, Renames)) + st.pd.queue,
                    p, Copy(HardEffects(st.server, renames, effects), p))
  {
    if Last(NotOfKind(st.flight.batch, Renames) + st.pd.queue, p, Want(c, st.vault, p).None?).Some? {
      RenamesBack(c, st, reply, effects, p);
    } else {
      RenamesTear(c, st, reply, effects, p);
    }
  }

  /** Only part of the deletes is put back, behind `a` from before. */
  lemma {:induction false} DeleteBackIff(c: Config, st: State, a: seq<Item>, deletes: seq<Item>, x': seq<Item>,
        b: seq<Item>, p: Path, copy': Option<Content>)
    requires Settled(c, st.vault, st.pd.debounced, (a + deletes) + b, p, Copy(st.server, p))
    requires (forall x :: x in deletes ==> x.op.Delete?) && (forall x :: x in x' ==> x in deletes)
    requires p !in Touched(deletes) ==> copy' == Copy(st.server, p)
    ensures Settled(c, st.vault, st.pd.debounced, (a + x') + b, p, copy')
            <==> || Want(c, st.vault, p).Some? || Last(b, p, true).Some? || p in Touched(x')
                 || if Last(a, p, true).Some? then !Restores(a, p) else copy'.None?
  {
    ViewConcat(a + deletes, b, p);
    ViewConcat(a, deletes, p);
    ViewConcat(a + x', b, p);
    ViewConcat(a, x', p);
    DeletesRemove(deletes, p);
    DeletesRemove(x', p);
    LastKind(b, p, true);
    LastNone(b, p, true);
    LastNone(b, p, false);
    if p in Touched(x') { TouchedSubset(x', deletes, p); }
  }

  /** What a delete request that does not stop leaves of a path, whatever its reply and effects. */
  lemma {:induction false} DeletesBack(c: Config, st: State, reply: Reply, effects: seq<Effect>, p: Path)
    requires st.flight.Deleting? && PathOk(c, st, p) && Plausible(OfKind(st.flight.batch, Deletes), effects, reply)
    requires forall x :: x in OfKind(st.flight.batch, Deletes) ==> x.op.Delete?
    ensures var batch, q, a := st.flight.batch, st.pd.queue, st.flight.lists.retry;
            var deletes, upserts := OfKind(batch, Deletes), OfKind(batch, Upserts);
            var x', server' := Returned(deletes, reply), HardEffects(st.server, deletes, effects);
            Settled(c, st.vault, st.pd.debounced, ((a + x') + upserts) + q, p, Copy(server', p))
            <==> || Want(c, st.vault, p).Some? || Last(q, p, true).Some? || p in Touched(x')
                 || if Last(a, p, true).Some? then !Restores(a, p) else p !in server'
  {
    var batch, q, l := st.flight.batch, st.pd.queue, st.flight.lists;
    var deletes, upserts := OfKind(batch, Deletes), OfKind(batch, Upserts);
    var x' := Returned(deletes, reply);
    DeletesFirst(c, st.vault, st.pd.debounced, l.retry, batch, q, p, Copy(st.server, p));
    assert (l.retry + x') + (upserts + q) == ((l.retry + x') + upserts) + q;
    ReturnedItems(deletes, reply);
    if p !in Touched(deletes) {
      HardEffectsElsewhere(st.server, deletes, effects, p);
    }
    UpsertsSkipped(batch, q, p);
    DeleteBackIff(c, st, l.retry, deletes, x', upserts + q, p, Copy(HardEffects(st.server, deletes, effects), p));
  }

  lemma {:induction false} UpsertsSkipped(batch: seq<Item>, q: seq<Item>, p: Path)
    ensures Last(OfKind(batch, Upserts) + q, p, true) == Last(q, p, true)
  {
    KindItems(batch, Upserts);
    UpsertsLast(OfKind(batch, Upserts), p);
    ViewConcat(OfKind(batch, Upserts), q, p);
  }

  /** A delete request that drops nothing of a path leaves it unsettled exactly by tearing it. */
  lemma {:induction false} DeletesTear(c: Config, st: State, reply: Reply, effects: seq<Effect>, p: Path)
    requires st.flight.Deleting? && PathOk(c, st, p) && Plausible(OfKind(st.flight.batch, Deletes), effects, reply)
    requires forall x :: x in OfKind(st.flight.batch, Deletes) ==> x.op.Delete?
    requires p !in Refused(OfKind(st.flight.batch, Deletes), reply)
    ensures var batch := st.flight.batch;
            var deletes := OfKind(batch, Deletes);
            Settled(c, st.vault, st.pd.debounced,
                    ((st.flight.lists.retry + Returned(deletes, reply)) + OfKind(batch, Upserts)) + st.pd.queue,
                    p, Copy(HardEffects(st.server, deletes, effects), p))
            <==> !(Want(c, st.vault, p).None? && Last(st.pd.queue, p, true).None? && p in TornByDeletes(st, reply))
  {
    var a, q, deletes := st.flight.lists.retry, st.pd.queue, OfKind(st.flight.batch, Deletes);
    DeletesBack(c, st, reply, effects, p);
    UpsertsSkipped(st.flight.batch, q, p);
    if Want(c, st.vault, p).None? && Last(q, p, true).None? && p !in Touched(Returned(deletes, reply)) {
      DeletesDone(c, st, reply, effects, p);
    }
  }

  /** An unwanted path of which no delete is put back: its delete took effect, or there was none and the path is
      as settled as before. */
  lemma {:induction false} DeletesDone(c: Config, st: State, reply: Reply, effects: seq<Effect>, p: Path)
    requires st.flight.Deleting? && PathOk(c, st, p) && Plausible(OfKind(st.flight.batch, Deletes), effects, reply)
    requires forall x :: x in OfKind(st.flight.batch, Deletes) ==> x.op.Delete?
    requires p !in Refused(OfKind(st.flight.batch, Deletes), reply)
    requires Want(c, st.vault, p).None? && Last(st.pd.queue, p, true).None?
    requires p !in Touched(Returned(OfKind(st.flight.batch, Deletes), reply))
    ensures var a, deletes := st.flight.lists.retry, OfKind(st.flight.batch, Deletes);
            if p in Touched(deletes) then p !in HardEffects(st.server, deletes, effects)
            else if Last(a, p, true).Some? then !Restores(a, p)
            else p !in HardEffects(st.server, deletes, effects)
  {
    var a := st.flight.lists.retry;
    var deletes, upserts := OfKind(st.flight.batch, Deletes), OfKind(st.flight.batch, Upserts);
    NoRenamesSkipped(deletes, effects, reply);
    RenamesGone(st.server, deletes, effects, reply, p);
    DeletesRemove(deletes, p);
    DeletesFirst(c, st.vault, st.pd.debounced, a, st.flight.batch, st.pd.queue, p, Copy(st.server, p));
    UpsertsSkipped(st.flight.batch, st.pd.queue, p);
    ViewConcat(a + deletes, upserts + st.pd.queue, p);
    ViewConcat(a, deletes, p);
  }

  lemma {:induction false} DeletesKeepPath(c: Config, st: State, reply: Reply, effects: seq<Effect>, now: int, p: Path)
    requires Enabled(c, st, DeleteReply(reply, effects)) && PathOk(c, st, p)
    requires forall x :: x in OfKind(st.flight.batch, Deletes) ==> x.op.Delete?
    requires !RequestPhase(st.flight.lists, OfKind(st.flight.batch, Deletes), reply).stop
    requires p !in Next(c, st, DeleteReply(reply, effects), now).stale
    ensures var batch := st.flight.batch;
            var deletes := OfKind(batch, Deletes);
            Settled(c, st.vault, st.pd.debounced,
                    ((st.flight.lists.retry + Returned(deletes, reply)) + OfKind(batch, Upserts)) + st.pd.queue,
                    p, Copy(HardEffects(st.server, deletes, effects), p))
  {
    UpsertsSkipped(st.flight.batch, st.pd.queue, p);
    if Last(OfKind(st.flight.batch, Upserts) + st.pd.queue, p, Want(c, st.vault, p).None?).Some? {
      DeletesBack(c, st, reply, effects, p);
    } else {
      DeletesTear(c, st, reply, effects, p);
    }
  }

  // ---- putting back -----------------------------------------------------------------------

  lemma {:induction false} BumpKeepsLast(items: seq<Item>, max: nat, p: Path, hard: bool)
    requires p !in Exhausted(items, max)
    ensures Last(Bump(items, max), p, hard) == Last(items, p, hard)
  {
    if items != [] {
      var n := |items| - 1;
      var init, x := items[..n], Retried(items[n]);
      forall i, q | 0 <= i < |init| && init[i].attempt >= max
          && q in OpPaths(init[i].op) ensures q in Exhausted(items, max) {
        assert items[i] == init[i];
      }
      BumpKeepsLast(init, max, p, hard);
      if x.attempt <= max {
        LastAppend(Bump(init, max), x, p, hard);
      } else {
        assert p !in OpPaths(items[n].op);
        assert Bump(items, max) == Bump(init, max);
      }
    }
  }

  lemma {:induction false} BumpSynced(c: Config, items: seq<Item>, max: nat)
    requires UpsertsSynced(c, items)
    ensures UpsertsSynced(c, Bump(items, max))
  {
    BumpItems(items, max);
    forall y | y in Bump(items, max) && y.op.Upsert? ensures c.Synced(y.op.path) {
      assert y.(attempt := y.attempt - 1) in items;
    }
  }

  /** Where something later decides the path, neither what comes before nor the server's copy matters. */
  lemma {:induction false} DecidedSettles(c: Config, vault: map<Path, File>, debounced: set<Path>, a: seq<Item>,
        a': seq<Item>, q: seq<Item>, p: Path, copy: Option<Content>, copy': Option<Content>)
    requires Settled(c, vault, debounced, a + q, p, copy) && Last(q, p, Want(c, vault, p).None?).Some?
    ensures Settled(c, vault, debounced, a' + q, p, copy')
  {
    ViewConcat(a, q, p);
    ViewConcat(a', q, p);
  }

  /** Ending a batch keeps the invariant when what goes back, in front of the queue, settles every
      path that is not lost. */
  lemma FinishKeepsInv(c: Config, st: State, batch: seq<Item>, l: Lists, server: map<Path, Note>, lost: set<Path>)
    requires Inv(c, st) && !st.flight.Idle? && batch == st.flight.batch
    requires forall x :: x in l.retry ==> x in batch
    requires forall p :: p !in st.stale && p !in lost ==>
               Settled(c, st.vault, st.pd.debounced, ToRetry(batch, l) + st.pd.queue, p, Copy(server, p))
    ensures Inv(c, Finish(c, st, batch, l, server, lost))
  {
    var st' := Finish(c, st, batch, l, server, lost);
    var retry := ToRetry(batch, l);
    var keys := Keys(l.acked) + Keys(l.dropped) + Keys(l.retry);
    SelectItems(batch, op => ItemKey(op) !in keys);
    assert UpsertsSynced(c, retry);
    BumpSynced(c, retry, c.maxAttempts);
    EmptyFront(st'.pd.queue);
    forall p | p !in st'.stale ensures PathOk(c, st', p) {
      assert PathOk(c, st, p);
      FinishKeepsPath(c, st, batch, l, server, lost, p);
    }
  }

  lemma FinishKeepsPath(c: Config, st: State, batch: seq<Item>, l: Lists, server: map<Path, Note>, lost: set<Path>,
        p: Path)
    requires PathOk(c, st, p) && p !in Finish(c, st, batch, l, server, lost).stale
    requires p !in lost ==>
               Settled(c, st.vault, st.pd.debounced, ToRetry(batch, l) + st.pd.queue, p, Copy(server, p))
    ensures Settled(c, st.vault, st.pd.debounced, PutBack(batch, l, c.maxAttempts) + st.pd.queue, p, Copy(server, p))
  {
    var retry, q := ToRetry(batch, l), st.pd.queue;
    if Last(q, p, Want(c, st.vault, p).None?).Some? {
      DecidedSettles(c, st.vault, st.pd.debounced, Owed(st.flight), PutBack(batch, l, c.maxAttempts), q, p,
        Copy(st.server, p), Copy(server, p));
    } else {
      BumpKeepsLast(retry, c.maxAttempts, p, false);
      BumpKeepsLast(retry, c.maxAttempts, p, true);
      ViewConcat(retry, q, p);
      ViewConcat(Bump(retry, c.maxAttempts), q, p);
    }
  }

  /** The items of kinds that were not classified are exactly the unhandled ones. */
  lemma UnhandledKinds(batch: seq<Item>, l: Lists, ks: set<Kind>)
    requires Classifies(batch, l, ks) && Renames in ks
    ensures ks == {Renames} ==> Unhandled(batch, l) == NotOfKind(batch, Renames)
    ensures ks == {Renames, Deletes} ==> Unhandled(batch, l) == OfKind(batch, Upserts)
    ensures ks == {Renames, Deletes, Upserts} ==> Unhandled(batch, l) == []
  {
    var keys := Keys(l.acked) + Keys(l.dropped) + Keys(l.retry);
    var keep := (op: Op) => ItemKey(op) !in keys;
    assert Unhandled(batch, l) == Select(batch, keep) by {
      SelectAgree(batch, op => ItemKey(op) !in keys, keep);
    }
    forall x | x in batch ensures keep(x.op) == (KindOf(x.op) !in ks) {
      if KindOf(x.op) !in ks && ItemKey(x.op) in keys {
        var y :| InLists(l, y) && ItemKey(y.op) == ItemKey(x.op);
        PlainKeyIsUnique(x.op, y.op);
      }
    }
    if ks == {Renames} {
      KindAgrees(batch, keep, Renames);
    } else if ks == {Renames, Deletes} {
      KindAgrees(batch, keep, Upserts);
    } else if ks == {Renames, Deletes, Upserts} {
      SelectNone(batch, keep);
    }
  }

  lemma {:induction false} KindAgrees(batch: seq<Item>, keep: Op -> bool, k: Kind)
    ensures (forall x :: x in batch ==> keep(x.op) == (KindOf(x.op) == k)) ==> Select(batch, keep) == OfKind(batch, k)
    ensures (forall x :: x in batch ==> keep(x.op) == (KindOf(x.op) != k))
        ==> Select(batch, keep) == NotOfKind(batch, k)
  {
    if forall x :: x in batch ==> keep(x.op) == (KindOf(x.op) == k) {
      SelectAgree(batch, keep, op => KindOf(op) == k);
    }
    if forall x :: x in batch ==> keep(x.op) == (KindOf(x.op) != k) {
      SelectAgree(batch, keep, op => KindOf(op) != k);
    }
  }

  // ---- the steps -----------------------------------------------------------------------------

  lemma TakeKeepsInv(c: Config, st: State, now: int)
    requires Inv(c, st) && Enabled(c, st, Take)
    ensures Inv(c, Next(c, st, Take, now))
  {
    var st' := Next(c, st, Take, now);
    var batch := st'.flight.batch;
    assert st.pd.queue == batch + st'.pd.queue;
    assert |batch| > 0;
    forall p | p !in st'.stale ensures PathOk(c, st', p) {
      assert PathOk(c, st, p);
      EmptyFront(st.pd.queue);
    }
  }

  /** The saved queue still contains what the request was working on. */
  lemma SavedSurvives(c: Config, st: State, items: seq<Item>, p: Path, copy: Option<Content>)
    requires Shape(c, st) && !st.flight.Idle? && SavedOk(c, st, p)
    requires forall x :: x in items ==> x in st.flight.batch && !x.op.Upsert?
    requires p !in Touched(items) ==> copy == Copy(st.server, p)
    ensures st.pd.saved != st.pd.queue ==> Settled(c, st.vault, st.pd.debounced, st.pd.saved, p, copy)
  {
    if st.pd.saved != st.pd.queue {
      if p in Touched(items) {
        var i :| 0 <= i < |items| && p in OpPaths(items[i].op);
        assert items[i] in items;
        var j :| 0 <= j < |st.flight.batch| && st.flight.batch[j] == items[i];
        assert st.pd.saved[j] == items[i];
        assert Touches(st.pd.saved[j].op, p, true);
        LastNone(st.pd.saved, p, true);
      }
      CopyIrrelevant(c, st.vault, st.pd.debounced, st.pd.saved, p, Copy(st.server, p), copy);
    }
  }

  /** A rename request that stops the drain puts back the renames in front of the rest. */
  lemma RenamesHaltedRetry(batch: seq<Item>, reply: Reply, l': Lists)
    requires RequestPhase(NoLists, OfKind(batch, Renames), reply) == BatchResult(l', true)
    ensures ToRetry(batch, l') == OfKind(batch, Renames) + NotOfKind(batch, Renames)
  {
    NoListsClassify(batch);
    ClassifiedByRequest(batch, NoLists, reply, Renames, {});
    assert {} + {Renames} == {Renames};
    UnhandledKinds(batch, l', {Renames});
  }

  lemma {:induction false} RenamesHalt(c: Config, st: State, effects: seq<Effect>, p: Path)
    requires st.flight.Renaming? && PathOk(c, st, p)
    requires |effects| == |OfKind(st.flight.batch, Renames)| && forall x
        :: x in OfKind(st.flight.batch, Renames) ==> !x.op.Upsert?
    ensures var batch := st.flight.batch;
            Settled(c, st.vault, st.pd.debounced, (OfKind(batch, Renames) + NotOfKind(batch, Renames)) + st.pd.queue, p,
                    Copy(HardEffects(st.server, OfKind(batch, Renames), effects), p))
  {
    var batch, q := st.flight.batch, st.pd.queue;
    var renames, rest := OfKind(batch, Renames), NotOfKind(batch, Renames);
    RenamesFirst(c, st.vault, st.pd.debounced, batch, q, p, Copy(st.server, p));
    assert renames + (rest + q) == (renames + rest) + q && [] + renames == renames;
    EffectsIrrelevant(c, st, [], renames, rest + q, effects, p);
  }

  lemma RenameReplyKeepsInv(c: Config, st: State, reply: Reply, effects: seq<Effect>, now: int)
    requires Inv(c, st) && Enabled(c, st, RenameReply(reply, effects))
    ensures Inv(c, Next(c, st, RenameReply(reply, effects), now))
  {
    var batch := st.flight.batch;
    KindItems(batch, Renames);
    NoListsClassify(batch);
    ClassifiedByRequest(batch, NoLists, reply, Renames, {});
    assert {} + {Renames} == {Renames};
    var res := RequestPhase(NoLists, OfKind(batch, Renames), reply);
    if res.stop {
      RenamesHaltedRetry(batch, reply, res.lists);
      forall p | p !in st.stale { RenamesHalt(c, st, effects, p); }
      FinishKeepsInv(c, st, batch, res.lists, HardEffects(st.server, OfKind(batch, Renames), effects), {});
    } else {
      var st' := Next(c, st, RenameReply(reply, effects), now);
      forall p | p !in st'.stale ensures PathOk(c, st', p) {
        RenamesKeepPath(c, st, reply, effects, now, p);
        RetryOfNone(OfKind(batch, Renames), reply);
        SavedAfterRequest(c, st, OfKind(batch, Renames), effects, p);
      }
    }
  }

  /** Whatever a failed request did on its own paths, the operations put back settle them. */
  lemma {:induction false} EffectsIrrelevant(c: Config, st: State, a: seq<Item>, items: seq<Item>, b: seq<Item>,
        effects: seq<Effect>, p: Path)
    requires |items| == |effects| && forall x :: x in items ==> !x.op.Upsert?
    requires Settled(c, st.vault, st.pd.debounced, (a + items) + b, p, Copy(st.server, p))
    ensures Settled(c, st.vault, st.pd.debounced, (a + items) + b, p, Copy(HardEffects(st.server, items, effects), p))
  {
    ViewConcat(a + items, b, p);
    ViewConcat(a, items, p);
    TouchedLast(items, p);
    if p !in Touched(items) {
      HardEffectsElsewhere(st.server, items, effects, p);
    }
    CopyIrrelevant(c, st.vault, st.pd.debounced, (a + items)
        + b, p, Copy(st.server, p), Copy(HardEffects(st.server, items, effects), p));
  }

  lemma {:induction false} SavedAfterRequest(c: Config, st: State, items: seq<Item>, effects: seq<Effect>, p: Path)
    requires Shape(c, st) && !st.flight.Idle? && SavedOk(c, st, p) && |items| == |effects|
    requires forall x :: x in items ==> x in st.flight.batch && !x.op.Upsert?
    ensures st.pd.saved != st.pd.queue ==>
              Settled(c, st.vault, st.pd.debounced, st.pd.saved, p, Copy(HardEffects(st.server, items, effects), p))
  {
    if p !in Touched(items) {
      HardEffectsElsewhere(st.server, items, effects, p);
    }
    SavedSurvives(c, st, items, p, Copy(HardEffects(st.server, items, effects), p));
  }

  lemma DeletesHaltedRetry(batch: seq<Item>, l: Lists, reply: Reply, l': Lists)
    requires Classifies(batch, l, {Renames})
    requires RequestPhase(l, OfKind(batch, Deletes), reply) == BatchResult(l', true)
    ensures ToRetry(batch, l') == (l.retry + OfKind(batch, Deletes)) + OfKind(batch, Upserts)
  {
    ClassifiedByRequest(batch, l, reply, Deletes, {Renames});
    assert {Renames} + {Deletes} == {Renames, Deletes};
    UnhandledKinds(batch, l', {Renames, Deletes});
  }

  lemma {:induction false} DeletesHalt(c: Config, st: State, effects: seq<Effect>, p: Path)
    requires st.flight.Deleting? && PathOk(c, st, p)
    requires |effects| == |OfKind(st.flight.batch, Deletes)| && forall x
        :: x in OfKind(st.flight.batch, Deletes) ==> !x.op.Upsert?
    ensures var batch := st.flight.batch;
            Settled(c, st.vault, st.pd.debounced, ((st.flight.lists.retry + OfKind(batch, Deletes))
                + OfKind(batch, Upserts)) + st.pd.queue, p,
                    Copy(HardEffects(st.server, OfKind(batch, Deletes), effects), p))
  {
    var batch, q, l := st.flight.batch, st.pd.queue, st.flight.lists;
    var deletes, upserts := OfKind(batch, Deletes), OfKind(batch, Upserts);
    DeletesFirst(c, st.vault, st.pd.debounced, l.retry, batch, q, p, Copy(st.server, p));
    EffectsIrrelevant(c, st, l.retry, deletes, upserts + q, effects, p);
    assert (l.retry + deletes) + (upserts + q) == ((l.retry + deletes) + upserts) + q;
  }

  lemma DeleteReplyKeepsInv(c: Config, st: State, reply: Reply, effects: seq<Effect>, now: int)
    requires Inv(c, st) && Enabled(c, st, DeleteReply(reply, effects))
    ensures Inv(c, Next(c, st, DeleteReply(reply, effects), now))
  {
    var batch, l := st.flight.batch, st.flight.lists;
    KindItems(batch, Deletes);
    ClassifiedByRequest(batch, l, reply, Deletes, {Renames});
    assert {Renames} + {Deletes} == {Renames, Deletes};
    var res := RequestPhase(l, OfKind(batch, Deletes), reply);
    assert forall x :: x in l.retry ==> InLists(l, x);
    if res.stop {
      DeletesHaltedRetry(batch, l, reply, res.lists);
      forall p | p !in st.stale { DeletesHalt(c, st, effects, p); }
      FinishKeepsInv(c, st, batch, res.lists, HardEffects(st.server, OfKind(batch, Deletes), effects), {});
    } else {
      var st' := Next(c, st, DeleteReply(reply, effects), now);
      forall p | p !in st'.stale ensures PathOk(c, st', p) {
        DeletesKeepPath(c, st, reply, effects, now, p);
        RequestLists(l, OfKind(batch, Deletes), reply);
        SavedAfterRequest(c, st, OfKind(batch, Deletes), effects, p);
      }
    }
  }
}
