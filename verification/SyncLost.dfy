/** Exactly when the other failures leave a path unsettled: a note refused for good or out of attempts, a request
    that stops the drain, and a restart (obsidian/src/sync-engine.ts:382-393, obsidian/src/queue.ts:183-191). */
module SyncLost {
  import opened Common
  import opened QueueItems
  import opened Batches
  import opened Draining
  import opened SyncStates
  import opened SyncSafety
  import opened SyncRequests
  import opened SyncUpserts
  import opened SyncTorn

  // ---- a note that does not come back -----------------------------------------------------------

  /** Of a path whose items have no attempt left nothing is put back. */
  lemma {:induction false} NothingBack(items: seq<Item>, max: nat, p: Path)
    requires forall i :: 0 <= i < |items| && p in OpPaths(items[i].op) ==> items[i].attempt >= max
    ensures p !in Touched(Bump(items, max))
  {
    if items != [] {
      var n := |items| - 1;
      assert forall i :: 0 <= i < n ==> items[..n][i] == items[i];
      NothingBack(items[..n], max, p);
      TouchedConcat(Bump(items[..n], max), [Retried(items[n])]);
      OneTouched(Retried(items[n]), p);
      assert Bump(items[..n], max) + [] == Bump(items[..n], max);
    }
  }

  lemma OneTouched(x: Item, p: Path)
    ensures p in Touched([x]) <==> p in OpPaths(x.op)
  {
    assert [x][0] == x;
  }

  /** Nothing that was built is put back by a refusal. */
  lemma RefusedBack(us: seq<Item>, outcomes: seq<Read>, p: Path)
    requires |us| == |outcomes| && Built in outcomes && forall x :: x in us ==> x.op.Upsert?
    requires forall i :: 0 <= i < |us| && us[i].op == Upsert(p) ==> outcomes[i] != BuildFailed
    ensures p !in Touched(UpsertPhase(NoLists, us, outcomes, Raised(PermanentError)).lists.retry)
  {
    var failed := ByRead(us, outcomes, BuildFailed, false);
    EmptyFront(failed);
    FailedReads(us, outcomes, p);
    assert UpsertPhase(NoLists, us, outcomes, Raised(PermanentError)).lists.retry == failed;
  }

  lemma {:induction false} FailedReads(us: seq<Item>, outcomes: seq<Read>, p: Path)
    requires |us| == |outcomes| && forall x :: x in us ==> x.op.Upsert?
    requires forall i :: 0 <= i < |us| && us[i].op == Upsert(p) ==> outcomes[i] != BuildFailed
    ensures p !in Touched(ByRead(us, outcomes, BuildFailed, false))
  {
    var failed := ByRead(us, outcomes, BuildFailed, false);
    ByReadItems(us, outcomes, BuildFailed, false);
    forall k | 0 <= k < |failed| ensures p !in OpPaths(failed[k].op) {
      assert failed[k] in failed;
      var i :| 0 <= i < |us| && us[i] == failed[k] && outcomes[i] == BuildFailed;
      assert us[i] in us;
    }
  }

  /** The request for the notes is refused for good: a wanted note whose payload was built is settled exactly when
      it is debounced or queued, or when nothing put back before touches it and the server has its content. */
  lemma RefusedNoteSettlesIff(c: Config, st: State, synced: map<Path, Effect>, now: int, p: Path)
    requires Shape(c, st) && PathOk(c, st, p) && Enabled(c, st, SyncReply(Raised(PermanentError), synced))
    requires Want(c, st.vault, p).Some? && Built in st.flight.outcomes
    requires forall i :: 0 <= i < |st.flight.outcomes| && OfKind(st.flight.batch, Upserts)[i].op == Upsert(p)
               ==> st.flight.outcomes[i] != BuildFailed
    ensures var next := Next(c, st, SyncReply(Raised(PermanentError), synced), now);
            SettledIn(c, next, p)
            <==> || p in st.pd.debounced || p in Touched(st.pd.queue)
                 || (p !in Touched(Bump(st.flight.lists.retry, c.maxAttempts))
                     && Copy(next.server, p) == Want(c, st.vault, p))
  {
    UpsertsOnly(st.flight.batch);
    RefusedBack(OfKind(st.flight.batch, Upserts), st.flight.outcomes, p);
    NothingBack(UpsertsBack(st, Raised(PermanentError)), c.maxAttempts, p);
    SyncReplySettlesIff(c, st, Raised(PermanentError), synced, now, p);
  }

  /** A wanted note with no attempt left, whatever the reply: put back or dropped, it is settled exactly as above. */
  lemma ExhaustedNoteSettlesIff(c: Config, st: State, reply: Reply, synced: map<Path, Effect>, now: int, p: Path)
    requires Shape(c, st) && PathOk(c, st, p) && Enabled(c, st, SyncReply(reply, synced))
    requires Want(c, st.vault, p).Some?
    requires forall x :: x in st.flight.batch && x.op == Upsert(p) ==> x.attempt >= c.maxAttempts
    ensures var next := Next(c, st, SyncReply(reply, synced), now);
            SettledIn(c, next, p)
            <==> || p in st.pd.debounced || p in Touched(st.pd.queue)
                 || (p !in Touched(Bump(st.flight.lists.retry, c.maxAttempts))
                     && Copy(next.server, p) == Want(c, st.vault, p))
  {
    ExhaustedBack(c, st, reply, p);
    SyncReplySettlesIff(c, st, reply, synced, now, p);
  }

  lemma ExhaustedBack(c: Config, st: State, reply: Reply, p: Path)
    requires Shape(c, st) && st.flight.Building? && |st.flight.outcomes| == |OfKind(st.flight.batch, Upserts)|
    requires forall x :: x in st.flight.batch && x.op == Upsert(p) ==> x.attempt >= c.maxAttempts
    ensures p !in Touched(Bump(UpsertsBack(st, reply), c.maxAttempts))
  {
    var back := UpsertsBack(st, reply);
    UpsertPhaseFacts(c, st, reply);
    KindItems(st.flight.batch, Upserts);
    forall i | 0 <= i < |back| && p in OpPaths(back[i].op) ensures back[i].attempt >= c.maxAttempts {
      assert back[i] in back;
    }
    NothingBack(back, c.maxAttempts, p);
  }

  // ---- a rename or delete request that stops -------------------------------------------------------

  /** A rename request that stops the drain puts back the whole batch, renames first: a path is settled exactly when
      something later decides it or what has an attempt left does, in particular if all its items have one. */
  lemma StoppedRenameSettlesIff(c: Config, st: State, reply: Reply, effects: seq<Effect>, now: int, p: Path)
    requires Shape(c, st) && PathOk(c, st, p) && Enabled(c, st, RenameReply(reply, effects))
    requires RequestPhase(NoLists, OfKind(st.flight.batch, Renames), reply).stop
    ensures var next, batch := Next(c, st, RenameReply(reply, effects), now), st.flight.batch;
            var back := OfKind(batch, Renames) + NotOfKind(batch, Renames);
            && (SettledIn(c, next, p)
                <==> LaterDecides(c, st, p)
                     || BackSettles(c, st.vault, next.server, Bump(back, c.maxAttempts), p))
            && (p !in Exhausted(back, c.maxAttempts) ==> SettledIn(c, next, p))
  {
    var batch := st.flight.batch;
    var renames := OfKind(batch, Renames);
    var l' := RequestPhase(NoLists, renames, reply).lists;
    var back := renames + NotOfKind(batch, Renames);
    KindItems(batch, Renames);
    RenamesHaltedRetry(batch, reply, l');
    FinishSettlesIff(c, st, batch, l', HardEffects(st.server, renames, effects), {}, p);
    if p !in Exhausted(back, c.maxAttempts) {
      RenamesHalt(c, st, effects, p);
      AttemptsLeftSettle(c, st, back, HardEffects(st.server, renames, effects), p);
    }
  }

  lemma {:induction false} AttemptsLeftSettle(c: Config, st: State, back: seq<Item>, server: map<Path, Note>, p: Path)
    requires PathOk(c, st, p) && p !in Exhausted(back, c.maxAttempts)
    requires Settled(c, st.vault, st.pd.debounced, back + st.pd.queue, p, Copy(server, p))
    ensures LaterDecides(c, st, p) || BackSettles(c, st.vault, server, Bump(back, c.maxAttempts), p)
  {
    BumpKeepsLast(back, c.maxAttempts, p, false);
    BumpKeepsLast(back, c.maxAttempts, p, true);
    ViewConcat(back, st.pd.queue, p);
    TouchedLast(Bump(back, c.maxAttempts), p);
    TouchedLast(st.pd.queue, p);
  }

  /** The same for a delete request. */
  lemma StoppedDeleteSettlesIff(c: Config, st: State, reply: Reply, effects: seq<Effect>, now: int, p: Path)
    requires Shape(c, st) && PathOk(c, st, p) && Enabled(c, st, DeleteReply(reply, effects))
    requires RequestPhase(st.flight.lists, OfKind(st.flight.batch, Deletes), reply).stop
    ensures var next, batch := Next(c, st, DeleteReply(reply, effects), now), st.flight.batch;
            var back := (st.flight.lists.retry + OfKind(batch, Deletes)) + OfKind(batch, Upserts);
            && (SettledIn(c, next, p)
                <==> LaterDecides(c, st, p)
                     || BackSettles(c, st.vault, next.server, Bump(back, c.maxAttempts), p))
            && (p !in Exhausted(back, c.maxAttempts) ==> SettledIn(c, next, p))
  {
    var batch, l := st.flight.batch, st.flight.lists;
    var deletes := OfKind(batch, Deletes);
    var l' := RequestPhase(l, deletes, reply).lists;
    var back := (l.retry + deletes) + OfKind(batch, Upserts);
    KindItems(batch, Deletes);
    DeletesHaltedRetry(batch, l, reply, l');
    FinishSettlesIff(c, st, batch, l', HardEffects(st.server, deletes, effects), {}, p);
    if p !in Exhausted(back, c.maxAttempts) {
      DeletesHalt(c, st, effects, p);
      AttemptsLeftSettle(c, st, back, HardEffects(st.server, deletes, effects), p);
    }
  }

  // ---- a restart -------------------------------------------------------------------------------

  /** After a restart, whatever the interrupted request did: a wanted path is settled exactly when the queue on disk
      has an operation of it, namely its upsert if an edit was debounced, or else the server has its content; an
      unwanted path exactly when the queue on disk has a delete or rename of it, or it is gone. */
  lemma {:induction false} RestartSettlesIff(c: Config, st: State, server: map<Path, Note>, now: int, p: Path)
    requires Shape(c, st) && PathOk(c, st, p) && Enabled(c, st, Restart(server))
    ensures var saved := st.pd.saved;
            SettledIn(c, Next(c, st, Restart(server), now), p)
            <==> if Want(c, st.vault, p).Some? then
                   if p in Touched(saved) then p in st.pd.debounced ==> Last(saved, p, false) == Some(Upsert(p))
                   else Copy(server, p) == Want(c, st.vault, p)
                 else Last(saved, p, true).Some? || p !in server
  {
    var saved, q := st.pd.saved, st.pd.queue;
    EmptyFront(saved);
    EmptyFront(q);
    ViewConcat(Owed(st.flight), q, p);
    TouchedLast(saved, p);
  }
}
