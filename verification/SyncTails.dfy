/** What the last operation on a path can be, in every reachable state: an upsert of it, or a delete or
    rename that removes it, but never a rename that brings it (obsidian/src/queue.ts:94-139). */
module SyncTails {
  import opened Common
  import opened QueueItems
  import opened Batches
  import opened Draining
  import opened SyncStates
  import opened SyncSafety
  import opened SyncRequests
  import opened SyncUpserts
  import opened SyncTheorem
  import opened SyncTorn

  predicate EndsWell(items: seq<Item>, p: Path) {
    var last := Last(items, p, false);
    last.None? || last == Some(Upsert(p)) || Removes(last.value, p)
  }

  ghost predicate TailsOk(st: State, p: Path) {
    EndsWell(Owed(st.flight) + st.pd.queue, p) && EndsWell(st.pd.saved, p)
  }

  ghost predicate TailInv(c: Config, st: State) {
    Inv(c, st) && forall p :: p !in st.stale ==> TailsOk(st, p)
  }

  // ---- lists ---------------------------------------------------------------------------------

  /** The later list decides, if it touches the path. */
  lemma EndsWellConcat(a: seq<Item>, b: seq<Item>, p: Path)
    ensures EndsWell(a + b, p) <==> if p in Touched(b) then EndsWell(b, p) else EndsWell(a, p)
    ensures p !in Touched(b) ==> EndsWell(b, p)
  {
    ViewConcat(a, b, p);
    TouchedLast(b, p);
  }

  lemma NoRenamesEndWell(items: seq<Item>, p: Path)
    requires forall x :: x in items ==> !x.op.Rename?
    ensures EndsWell(items, p)
  {
    LastKind(items, p, false);
  }

  // ---- enqueuing -------------------------------------------------------------------------------

  /** Whatever an event enqueues, the path's last operation is as it was or ends well. */
  lemma {:induction false} EventEndsWell(c: Config, pd: Pending, ev: Event, now: int, p: Path)
    requires IsVaultEvent(ev) && (ev.Move? ==> ev.oldPath != ev.newPath)
    ensures var pd' := PendingAfter(c, pd, ev, now);
            Last(pd'.queue, p, false) == Last(pd.queue, p, false)
            || (p in Touched(pd'.queue) && EndsWell(pd'.queue, p))
  {
    var q := pd.queue;
    TouchedLast(PendingAfter(c, pd, ev, now).queue, p);
    match ev
    case Create(r, _) => EnqueueUpsertEffect(q, r, now, p);
    case Modify(r, _) => EnqueueUpsertEffect(q, r, now, p);
    case Remove(r) => EnqueueDeleteEffect(q, r, now, p, false);
    case Move(o, n) =>
      EnqueueDeleteEffect(q, o, now, p, false);
      EnqueueRenameEffect(q, o, n, now, p, false);
    case MetadataChanged(r) => EnqueueUpsertEffect(q, r, now, p);
    case DebounceFires(r) => EnqueueUpsertEffect(q, r, now, p);
    case Unseen(_) =>
  }

  lemma {:induction false} QueueChanges(a: seq<Item>, q: seq<Item>, q': seq<Item>, p: Path)
    requires EndsWell(a + q, p)
    requires Last(q', p, false) == Last(q, p, false) || (p in Touched(q') && EndsWell(q', p))
    ensures EndsWell(a + q', p) && EndsWell(q', p)
  {
    EndsWellConcat(a, q, p);
    EndsWellConcat(a, q', p);
    TouchedLast(q, p);
    TouchedLast(q', p);
  }

  lemma VaultEventKeepsTails(c: Config, st: State, ev: Event, now: int, p: Path)
    requires Shape(c, st) && Enabled(c, st, ev) && IsVaultEvent(ev) && TailsOk(st, p)
    ensures TailsOk(Next(c, st, ev, now), p)
  {
    VaultEventKeepsShape(c, st, ev, now);
    EventEndsWell(c, st.pd, ev, now, p);
    QueueChanges(Owed(st.flight), st.pd.queue, PendingAfter(c, st.pd, ev, now).queue, p);
  }

  lemma DiffKeepsTails(st: State, upserts: seq<Path>, deletes: seq<Path>, now: int, p: Path)
    requires p in upserts || p in deletes || TailsOk(st, p)
    requires p in upserts ==> p !in deletes
    ensures TailsOk(st.(pd := OnDiff(st.pd, upserts, deletes, now)), p)
  {
    if upserts != [] || deletes != [] {
      var q := st.pd.queue;
      var q' := DiffQueue(q, upserts, deletes, now);
      DiffQueueEffect(q, upserts, deletes, now, p);
      TouchedLast(q', p);
      if p in upserts || p in deletes {
        EndsWellConcat(Owed(st.flight), q', p);
      } else {
        QueueChanges(Owed(st.flight), q, q', p);
      }
    }
  }

  // ---- putting back ------------------------------------------------------------------------------

  /** An operation that decides the path later ends it well, whatever comes before. */
  lemma {:induction false} DecidedEndsWell(a: seq<Item>, a': seq<Item>, q: seq<Item>, p: Path, hard: bool)
    requires EndsWell(a + q, p) && Last(q, p, hard).Some?
    ensures EndsWell(a' + q, p)
  {
    EndsWellConcat(a, q, p);
    EndsWellConcat(a', q, p);
    LastKind(q, p, hard);
    if p !in Touched(q) { LastUntouched(q, p, hard); }
  }

  lemma FinishKeepsTails(c: Config, st: State, batch: seq<Item>, l: Lists, server: map<Path, Note>, lost: set<Path>,
        p: Path)
    requires EndsWell(Owed(st.flight) + st.pd.queue, p) && p !in Finish(c, st, batch, l, server, lost).stale
    requires p !in lost ==> EndsWell(ToRetry(batch, l) + st.pd.queue, p)
    ensures TailsOk(Finish(c, st, batch, l, server, lost), p)
  {
    var retry, q, hard := ToRetry(batch, l), st.pd.queue, Want(c, st.vault, p).None?;
    EmptyFront(Bump(retry, c.maxAttempts) + q);
    if Last(q, p, hard).Some? {
      DecidedEndsWell(Owed(st.flight), Bump(retry, c.maxAttempts), q, p, hard);
    } else {
      BumpKeepsLast(retry, c.maxAttempts, p, false);
      ViewConcat(retry, q, p);
      ViewConcat(Bump(retry, c.maxAttempts), q, p);
    }
  }

  // ---- the requests ---------------------------------------------------------------------------------

  /** Renames in front of the rest of the batch: the rest has no renames. */
  lemma RenamesFrontEndsWell(batch: seq<Item>, q: seq<Item>, p: Path)
    requires EndsWell(batch + q, p)
    ensures EndsWell(OfKind(batch, Renames) + (NotOfKind(batch, Renames) + q), p)
  {
    var renames, rest := OfKind(batch, Renames), NotOfKind(batch, Renames);
    KindItems(batch, Renames);
    NoRenamesEndWell(rest, p);
    EndsWellConcat(batch, q, p);
    EndsWellConcat(renames, rest + q, p);
    EndsWellConcat(rest, q, p);
    TouchedConcat(rest, q);
    if p !in Touched(rest) {
      forall x | x in batch && Touches(x.op, p, false) ensures KindOf(x.op) == Renames {
        if KindOf(x.op) != Renames {
          TouchedItem(rest, x, p);
        }
      }
      LastSelect(batch, op => KindOf(op) == Renames, p, false);
    }
  }

  lemma {:induction false} RenamesKeepTails(c: Config, st: State, reply: Reply, p: Path)
    requires st.flight.Renaming? && EndsWell(st.flight.batch + st.pd.queue, p)
    requires p in TornByRenames(st, reply) ==>
               Last(NotOfKind(st.flight.batch, Renames) + st.pd.queue, p, Want(c, st.vault, p).None?).Some?
    ensures EndsWell((Returned(OfKind(st.flight.batch, Renames), reply) + NotOfKind(st.flight.batch, Renames))
                     + st.pd.queue, p)
  {
    var batch, q := st.flight.batch, st.pd.queue;
    var renames, rest := OfKind(batch, Renames), NotOfKind(batch, Renames);
    var x' := Returned(renames, reply);
    RenamesFrontEndsWell(batch, q, p);
    EndsWellConcat(renames, rest + q, p);
    EndsWellConcat(x', rest + q, p);
    assert (x' + rest) + q == x' + (rest + q);
    KindItems(batch, Renames);
    ReturnedItems(renames, reply);
    TouchedLast(x', p);
    if p !in Touched(rest + q) {
      LastUntouched(rest + q, p, false);
      LastUntouched(rest + q, p, true);
    }
  }

  lemma {:induction false} DeletesKeepTails(c: Config, st: State, reply: Reply, p: Path)
    requires st.flight.Deleting? && (forall x :: x in st.flight.lists.retry ==> !x.op.Upsert?)
    requires EndsWell((st.flight.lists.retry + NotOfKind(st.flight.batch, Renames)) + st.pd.queue, p)
    requires p in TornByDeletes(st, reply) ==>
               Last(OfKind(st.flight.batch, Upserts) + st.pd.queue, p, Want(c, st.vault, p).None?).Some?
    ensures EndsWell(((st.flight.lists.retry + Returned(OfKind(st.flight.batch, Deletes), reply))
                      + OfKind(st.flight.batch, Upserts)) + st.pd.queue, p)
  {
    var batch, q, a := st.flight.batch, st.pd.queue, st.flight.lists.retry;
    var rest, deletes, us := NotOfKind(batch, Renames), OfKind(batch, Deletes), OfKind(batch, Upserts);
    var x' := Returned(deletes, reply);
    KindItems(batch, Renames);
    KindItems(batch, Deletes);
    KindItems(batch, Upserts);
    ReturnedItems(deletes, reply);
    TouchedConcat(us, q);
    TouchedLast(a, p);
    if p !in Touched(us + q) {
      LastUntouched(us + q, p, false);
      LastUntouched(us + q, p, true);
    }
    DeletesBackEndWell(a, rest, deletes, us, x', q, p);
  }

  /** Some deletes are put back behind `a`: the last operation on the path is among them, comes later, or is that of
      `a`, which removes the path if a delete of it was acknowledged. */
  lemma DeletesBackEndWell(a: seq<Item>, rest: seq<Item>, deletes: seq<Item>, us: seq<Item>, x': seq<Item>,
        q: seq<Item>, p: Path)
    requires EndsWell((a + rest) + q, p)
    requires (forall x :: x in deletes ==> x.op.Delete?) && (forall x :: x in us ==> x.op.Upsert?)
    requires (forall x :: x in rest ==> x in deletes || x in us) && (forall x :: x in x' ==> x in deletes)
    requires p in Touched(deletes) && p !in Touched(x') && p !in Touched(us) && p !in Touched(q) ==> EndsWell(a, p)
    ensures EndsWell(((a + x') + us) + q, p)
  {
    EndsWellConcat(a + rest, q, p);
    EndsWellConcat(a, rest, p);
    EndsWellConcat((a + x') + us, q, p);
    EndsWellConcat(a + x', us, p);
    EndsWellConcat(a, x', p);
    NoRenamesEndWell(us, p);
    NoRenamesEndWell(x', p);
    if p in Touched(rest) && p !in Touched(us) {
      var i :| 0 <= i < |rest| && p in OpPaths(rest[i].op);
      assert rest[i] in rest;
      if rest[i] in us { TouchedItem(us, rest[i], p); } else { TouchedItem(deletes, rest[i], p); }
    }
  }

  lemma UpsertsKeepTails(c: Config, st: State, reply: Reply, p: Path)
    requires Shape(c, st) && st.flight.Building? && |st.flight.outcomes| == |OfKind(st.flight.batch, Upserts)|
    requires PathOk(c, st, p) && p !in TornByNotes(c, st, reply)
    requires EndsWell((st.flight.lists.retry + OfKind(st.flight.batch, Upserts)) + st.pd.queue, p)
    ensures EndsWell((st.flight.lists.retry + UpsertsBack(st, reply)) + st.pd.queue, p)
  {
    var us, a, q := OfKind(st.flight.batch, Upserts), st.flight.lists.retry, st.pd.queue;
    var back := UpsertsBack(st, reply);
    UpsertPhaseFacts(c, st, reply);
    EndsWellConcat(a + us, q, p);
    EndsWellConcat(a, us, p);
    EndsWellConcat(a + back, q, p);
    EndsWellConcat(a, back, p);
    NoRenamesEndWell(back, p);
    if p !in Touched(q) && p !in Touched(back) {
      LeftOverEndsWell(c, st, reply, p);
    }
  }

  /** Only what the earlier requests put back touches the path. */
  lemma LeftOverEndsWell(c: Config, st: State, reply: Reply, p: Path)
    requires Shape(c, st) && st.flight.Building? && |st.flight.outcomes| == |OfKind(st.flight.batch, Upserts)|
    requires PathOk(c, st, p) && p !in TornByNotes(c, st, reply)
    requires p !in Touched(st.pd.queue) && p !in Touched(UpsertsBack(st, reply))
    ensures EndsWell(st.flight.lists.retry, p)
  {
    var us, a, q := OfKind(st.flight.batch, Upserts), st.flight.lists.retry, st.pd.queue;
    UpsertPhaseFacts(c, st, reply);
    UpsertsLast(us, p);
    ViewConcat(a + us, q, p);
    ViewConcat(a, us, p);
    TouchedLast(a, p);
    LastUntouched(q, p, true);
  }

  // ---- steps and runs ------------------------------------------------------------------------------

  lemma RenamesHaltKeepsTails(c: Config, st: State, reply: Reply, effects: seq<Effect>, now: int, p: Path)
    requires Shape(c, st) && Enabled(c, st, RenameReply(reply, effects)) && TailsOk(st, p)
    requires p !in Next(c, st, RenameReply(reply, effects), now).stale
    requires RequestPhase(NoLists, OfKind(st.flight.batch, Renames), reply).stop
    ensures TailsOk(Next(c, st, RenameReply(reply, effects), now), p)
  {
    var batch := st.flight.batch;
    var renames := OfKind(batch, Renames);
    KindItems(batch, Renames);
    var l' := RequestPhase(NoLists, renames, reply).lists;
    RenamesHaltedRetry(batch, reply, l');
    RenamesInFront(batch, st.pd.queue, p);
    FinishKeepsTails(c, st, batch, l', HardEffects(st.server, renames, effects), {}, p);
  }

  lemma RenamesInFront(batch: seq<Item>, q: seq<Item>, p: Path)
    requires EndsWell(batch + q, p)
    ensures EndsWell((OfKind(batch, Renames) + NotOfKind(batch, Renames)) + q, p)
  {
    var renames, rest := OfKind(batch, Renames), NotOfKind(batch, Renames);
    RenamesFrontEndsWell(batch, q, p);
    assert renames + (rest + q) == (renames + rest) + q;
  }

  lemma RenamesPassKeepsTails(c: Config, st: State, reply: Reply, effects: seq<Effect>, now: int, p: Path)
    requires Enabled(c, st, RenameReply(reply, effects)) && TailsOk(st, p)
    requires p !in Next(c, st, RenameReply(reply, effects), now).stale
    requires !RequestPhase(NoLists, OfKind(st.flight.batch, Renames), reply).stop
    ensures TailsOk(Next(c, st, RenameReply(reply, effects), now), p)
  {
    KindItems(st.flight.batch, Renames);
    OwedAfterRenames(c, st, reply, effects, now);
    RenamesKeepTails(c, st, reply, p);
  }

  lemma RenameReplyKeepsTails(c: Config, st: State, reply: Reply, effects: seq<Effect>, now: int, p: Path)
    requires Shape(c, st) && Enabled(c, st, RenameReply(reply, effects)) && TailsOk(st, p)
    requires p !in Next(c, st, RenameReply(reply, effects), now).stale
    ensures TailsOk(Next(c, st, RenameReply(reply, effects), now), p)
  {
    if RequestPhase(NoLists, OfKind(st.flight.batch, Renames), reply).stop {
      RenamesHaltKeepsTails(c, st, reply, effects, now, p);
    } else {
      RenamesPassKeepsTails(c, st, reply, effects, now, p);
    }
  }

  lemma DeletesHaltKeepsTails(c: Config, st: State, reply: Reply, effects: seq<Effect>, now: int, p: Path)
    requires Shape(c, st) && Enabled(c, st, DeleteReply(reply, effects)) && TailsOk(st, p)
    requires p !in Next(c, st, DeleteReply(reply, effects), now).stale
    requires RequestPhase(st.flight.lists, OfKind(st.flight.batch, Deletes), reply).stop
    ensures TailsOk(Next(c, st, DeleteReply(reply, effects), now), p)
  {
    var batch, l := st.flight.batch, st.flight.lists;
    var rest, deletes, us := NotOfKind(batch, Renames), OfKind(batch, Deletes), OfKind(batch, Upserts);
    KindItems(batch, Renames);
    KindItems(batch, Deletes);
    KindItems(batch, Upserts);
    var l' := RequestPhase(l, deletes, reply).lists;
    RequestLists(l, deletes, reply);
    DeletesHaltedRetry(batch, l, reply, l');
    DeletesBackEndWell(l.retry, rest, deletes, us, deletes, st.pd.queue, p);
    FinishKeepsTails(c, st, batch, l', HardEffects(st.server, deletes, effects), {}, p);
  }

  lemma DeletesPassKeepsTails(c: Config, st: State, reply: Reply, effects: seq<Effect>, now: int, p: Path)
    requires Shape(c, st) && Enabled(c, st, DeleteReply(reply, effects)) && TailsOk(st, p)
    requires p !in Next(c, st, DeleteReply(reply, effects), now).stale
    requires !RequestPhase(st.flight.lists, OfKind(st.flight.batch, Deletes), reply).stop
    ensures TailsOk(Next(c, st, DeleteReply(reply, effects), now), p)
  {
    KindItems(st.flight.batch, Deletes);
    OwedAfterDeletes(c, st, reply, effects, now);
    assert forall x :: x in st.flight.lists.retry ==> InLists(st.flight.lists, x);
    DeletesKeepTails(c, st, reply, p);
  }

  lemma DeleteReplyKeepsTails(c: Config, st: State, reply: Reply, effects: seq<Effect>, now: int, p: Path)
    requires Shape(c, st) && Enabled(c, st, DeleteReply(reply, effects)) && TailsOk(st, p)
    requires p !in Next(c, st, DeleteReply(reply, effects), now).stale
    ensures TailsOk(Next(c, st, DeleteReply(reply, effects), now), p)
  {
    if RequestPhase(st.flight.lists, OfKind(st.flight.batch, Deletes), reply).stop {
      DeletesHaltKeepsTails(c, st, reply, effects, now, p);
    } else {
      DeletesPassKeepsTails(c, st, reply, effects, now, p);
    }
  }

  lemma NotesKeepTails(c: Config, st: State, reply: Reply, synced: map<Path, Effect>, p: Path)
    requires Shape(c, st) && st.flight.Building? && |st.flight.outcomes| == |OfKind(st.flight.batch, Upserts)|
    requires PathOk(c, st, p) && TailsOk(st, p) && p !in LostByNotes(c, st, synced, reply)
    ensures EndsWell((st.flight.lists.retry + UpsertsBack(st, reply)) + st.pd.queue, p)
  {
    UpsertsKeepTails(c, st, reply, p);
  }

  lemma SyncReplyKeepsTails(c: Config, st: State, reply: Reply, synced: map<Path, Effect>, now: int, p: Path)
    requires Shape(c, st) && Enabled(c, st, SyncReply(reply, synced)) && PathOk(c, st, p) && TailsOk(st, p)
    requires p !in Next(c, st, SyncReply(reply, synced), now).stale
    ensures TailsOk(Next(c, st, SyncReply(reply, synced), now), p)
  {
    var batch, l, lost := st.flight.batch, st.flight.lists, LostByNotes(c, st, synced, reply);
    var res := UpsertPhase(l, OfKind(batch, Upserts), st.flight.outcomes, reply);
    SyncRetry(batch, l, st.flight.outcomes, reply);
    if p !in lost {
      NotesKeepTails(c, st, reply, synced, p);
    }
    FinishKeepsTails(c, st, batch, res.lists, SyncEffect(st.server, synced), lost, p);
  }

  lemma RestartKeepsTails(c: Config, st: State, server: map<Path, Note>, now: int, p: Path)
    requires Enabled(c, st, Restart(server)) && TailsOk(st, p)
    ensures TailsOk(Next(c, st, Restart(server), now), p)
  {
    EmptyFront(st.pd.saved);
  }

  lemma ReconcileKeepsTails(c: Config, st: State, ev: Event, now: int, p: Path)
    requires ev.Reconcile? && Enabled(c, st, ev) && (p !in st.stale ==> TailsOk(st, p))
    requires p !in Next(c, st, ev, now).stale
    ensures TailsOk(Next(c, st, ev, now), p)
  {
    var upserts := Outdated(ev.locals, st.vault, ev.manifest);
    var deletes := RemoteOnly(ev.remotes, ev.locals, ev.buried);
    DiffKeepsTails(st, upserts, deletes, now, p);
  }

  lemma TakeKeepsTails(c: Config, st: State, now: int, p: Path)
    requires Enabled(c, st, Take) && TailsOk(st, p)
    ensures TailsOk(Next(c, st, Take, now), p)
  {
    assert st.pd.queue == Taken(st.pd.queue, c.batchSize) + st.pd.queue[Min(c.batchSize, |st.pd.queue|)..];
    EmptyFront(st.pd.queue);
  }

  /** Only what enqueues for a path takes it off the stale list. */
  lemma StaleShrinks(c: Config, st: State, ev: Event, now: int, p: Path)
    requires Enabled(c, st, ev) && p in st.stale && p !in Next(c, st, ev, now).stale
    ensures ev.Reconcile? || (IsVaultEvent(ev) && p in Renewed(c, st.vault, ev))
  {}

  lemma RenewedEndsWell(c: Config, vault: map<Path, File>, pd: Pending, ev: Event, now: int, p: Path)
    requires p in Renewed(c, vault, ev) && (ev.Move? ==> ev.oldPath != ev.newPath)
    ensures var pd' := PendingAfter(c, pd, ev, now);
            pd'.saved == pd'.queue && p in Touched(pd'.queue) && EndsWell(pd'.queue, p)
  {
    var q := pd.queue;
    TouchedLast(PendingAfter(c, pd, ev, now).queue, p);
    match ev
    case Remove(_) => EnqueueDeleteEffect(q, p, now, p, false);
    case Move(o, n) =>
      EnqueueDeleteEffect(q, o, now, p, false);
      EnqueueRenameEffect(q, o, n, now, p, false);
    case _ => EnqueueUpsertEffect(q, p, now, p);
  }

  lemma StepKeepsTails(c: Config, st: State, ev: Event, now: int, p: Path)
    requires Inv(c, st) && Enabled(c, st, ev) && (p !in st.stale ==> TailsOk(st, p))
    requires p !in Next(c, st, ev, now).stale
    ensures TailsOk(Next(c, st, ev, now), p)
  {
    if p in st.stale { StaleShrinks(c, st, ev, now, p); }
    match ev
    case Take => TakeKeepsTails(c, st, now, p);
    case RenameReply(reply, effects) => RenameReplyKeepsTails(c, st, reply, effects, now, p);
    case DeleteReply(reply, effects) => DeleteReplyKeepsTails(c, st, reply, effects, now, p);
    case ReadNext(_) =>
    case SyncReply(reply, synced) => SyncReplyKeepsTails(c, st, reply, synced, now, p);
    case Reconcile(_, _, _, _) => ReconcileKeepsTails(c, st, ev, now, p);
    case Restart(server) => RestartKeepsTails(c, st, server, now, p);
    case _ =>
      if p in Renewed(c, st.vault, ev) {
        RenewedEndsWell(c, st.vault, st.pd, ev, now, p);
        EndsWellConcat(Owed(st.flight), Next(c, st, ev, now).pd.queue, p);
      } else {
        VaultEventKeepsTails(c, st, ev, now, p);
      }
  }

  lemma NextKeepsTails(c: Config, st: State, ev: Event, now: int)
    requires TailInv(c, st) && Enabled(c, st, ev)
    ensures TailInv(c, Next(c, st, ev, now))
  {
    NextKeepsInv(c, st, ev, now);
    forall p | p !in Next(c, st, ev, now).stale ensures TailsOk(Next(c, st, ev, now), p) {
      StepKeepsTails(c, st, ev, now, p);
    }
  }

  /** In every reachable state the last operation pending on a path that is not stale is an upsert of it,
      or removes it. */
  lemma {:induction false} RunKeepsTails(c: Config, states: seq<State>, events: seq<(Event, int)>, k: nat)
    requires Run(c, states, events) && k < |states|
    ensures TailInv(c, states[k])
  {
    if k > 0 {
      RunKeepsTails(c, states, events, k - 1);
      NextKeepsTails(c, states[k - 1], events[k - 1].0, events[k - 1].1);
    } else {
      RunKeepsInv(c, states, events, 0);
      EmptyFront([]);
    }
  }
}
