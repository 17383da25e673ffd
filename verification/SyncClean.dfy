/** When nothing goes stale: requests succeed as a whole or stop the drain, and nothing is lost. */
module SyncClean {
  import opened QueueItems
  import opened Batches
  import opened Draining
  import opened SyncStates
  import opened SyncSafety
  import opened SyncUpserts
  import opened SyncTheorem

  /** The request succeeds as a whole or stops the drain (possibly after a partial effect). */
  predicate Fine(reply: Reply) {
    reply == Answered({}) || (reply.Raised? && Classify(reply.error) == Halt)
  }

  predicate AttemptsLeft(c: Config, batch: seq<Item>) {
    forall x :: x in batch ==> x.attempt < c.maxAttempts
  }

  /** A step inside the failure model the protocol is built for. A restart may interrupt a batch
      only if nothing was enqueued since the batch was taken, and no edit may be debounced. */
  ghost predicate Clean(c: Config, st: State, ev: Event) {
    match ev
    case Unseen(_) => false
    case Move(o, n) => c.Synced(o) ==> c.tracked(n)
    case RenameReply(reply, effects) => Fine(reply) && (reply.Answered? ==> Skipped !in effects)
        && (st.flight.Renaming? ==> AttemptsLeft(c, st.flight.batch))
    case DeleteReply(reply, effects) => Fine(reply) && (st.flight.Deleting? ==> AttemptsLeft(c, st.flight.batch))
    case SyncReply(reply, synced) => Fine(reply) && (st.flight.Building? ==>
        UnstoredNotes(st.flight.payloads, synced, reply) == {} && AttemptsLeft(c, st.flight.batch))
    case Restart(_) => st.pd.debounced == {} && (st.flight.Idle? || st.pd.saved != st.pd.queue)
    case _ => true
  }

  ghost predicate CleanFlight(f: Flight) {
    match f
    case Idle => true
    case Renaming(_) => true
    case Deleting(batch, l) => l.retry == [] && l.dropped == []
    case Building(batch, l, _, _) => l.retry == [] && l.dropped == []
  }

  lemma NothingExhausted(items: seq<Item>, batch: seq<Item>, max: nat)
    requires forall x :: x in items ==> x in batch
    requires forall x :: x in batch ==> x.attempt < max
    ensures Exhausted(items, max) == {}
  {
    forall i | 0 <= i < |items| ensures items[i].attempt < max {
      assert items[i] in items;
    }
  }

  lemma ToRetryInBatch(batch: seq<Item>, l: Lists)
    requires forall x :: x in l.retry ==> x in batch
    ensures forall x :: x in ToRetry(batch, l) ==> x in batch
  {
    var keys := Keys(l.acked) + Keys(l.dropped) + Keys(l.retry);
    SelectItems(batch, op => ItemKey(op) !in keys);
  }

  lemma FineRequest(c: Config, st: State, k: Kind, l: Lists, reply: Reply)
    requires Fine(reply) && l.retry == [] && l.dropped == [] && !st.flight.Idle?
    ensures var res := RequestPhase(l, OfKind(st.flight.batch, k), reply);
            && res.lists.dropped == []
            && (!res.stop ==> res.lists.retry == [])
            && forall x :: x in res.lists.retry ==> x in st.flight.batch
  {
    var items := OfKind(st.flight.batch, k);
    KindItems(st.flight.batch, k);
    if reply.Answered? {
      NoneFailed(items, reply.failed);
    }
  }

  lemma CleanRenameReply(c: Config, st: State, reply: Reply, effects: seq<Effect>, now: int)
    requires Enabled(c, st, RenameReply(reply, effects)) && Clean(c, st, RenameReply(reply, effects))
    ensures var st' := Next(c, st, RenameReply(reply, effects), now);
            st'.stale <= st.stale && CleanFlight(st'.flight)
  {
    var batch := st.flight.batch;
    FineRequest(c, st, Renames, NoLists, reply);
    var res := RequestPhase(NoLists, OfKind(batch, Renames), reply);
    ToRetryInBatch(batch, res.lists);
    NothingExhausted(ToRetry(batch, res.lists), batch, c.maxAttempts);
  }

  lemma CleanDeleteReply(c: Config, st: State, reply: Reply, effects: seq<Effect>, now: int)
    requires Enabled(c, st, DeleteReply(reply, effects)) && Clean(c, st, DeleteReply(reply, effects))
    requires CleanFlight(st.flight)
    ensures var st' := Next(c, st, DeleteReply(reply, effects), now);
            st'.stale <= st.stale && CleanFlight(st'.flight)
  {
    var batch := st.flight.batch;
    FineRequest(c, st, Deletes, st.flight.lists, reply);
    var res := RequestPhase(st.flight.lists, OfKind(batch, Deletes), reply);
    ToRetryInBatch(batch, res.lists);
    NothingExhausted(ToRetry(batch, res.lists), batch, c.maxAttempts);
  }

  /** The request for the notes succeeds as a whole or stops: nothing is dropped, and unless it stops nothing
      of the earlier phases is put back either. */
  lemma CleanSyncLists(c: Config, st: State, reply: Reply)
    requires Shape(c, st) && st.flight.Building? && CleanFlight(st.flight) && Fine(reply)
    requires |st.flight.outcomes| == |OfKind(st.flight.batch, Upserts)| && AttemptsLeft(c, st.flight.batch)
    ensures var res := UpsertPhase(st.flight.lists, OfKind(st.flight.batch, Upserts), st.flight.outcomes, reply);
            && res.lists.dropped == []
            && Exhausted(ToRetry(st.flight.batch, res.lists), c.maxAttempts) == {}
  {
    var batch := st.flight.batch;
    var res := UpsertPhase(st.flight.lists, OfKind(batch, Upserts), st.flight.outcomes, reply);
    SyncRetry(batch, st.flight.lists, st.flight.outcomes, reply);
    assert res.lists.dropped == [];
    ToRetryInBatch(batch, res.lists);
    NothingExhausted(ToRetry(batch, res.lists), batch, c.maxAttempts);
  }

  lemma CleanSyncReply(c: Config, st: State, reply: Reply, synced: map<Path, Effect>, now: int)
    requires Shape(c, st) && Enabled(c, st, SyncReply(reply, synced)) && Clean(c, st, SyncReply(reply, synced))
    requires CleanFlight(st.flight)
    ensures var st' := Next(c, st, SyncReply(reply, synced), now);
            st'.stale <= st.stale && CleanFlight(st'.flight)
  {
    CleanSyncLists(c, st, reply);
  }

  /** A clean step makes nothing stale and leaves the flight clean. */
  lemma CleanStepAddsNothing(c: Config, st: State, ev: Event, now: int)
    requires Shape(c, st) && Enabled(c, st, ev) && Clean(c, st, ev) && CleanFlight(st.flight)
    ensures Next(c, st, ev, now).stale <= st.stale && CleanFlight(Next(c, st, ev, now).flight)
  {
    match ev
    case RenameReply(reply, effects) => CleanRenameReply(c, st, reply, effects, now);
    case DeleteReply(reply, effects) => CleanDeleteReply(c, st, reply, effects, now);
    case SyncReply(reply, synced) => CleanSyncReply(c, st, reply, synced, now);
    case _ =>
  }

  /** A run of clean steps that starts in sync stays in sync: whatever is not pending is equal, and
      once nothing is pending the server is exactly the synced vault. */
  lemma {:induction false} CleanRunStaysInSync(c: Config, states: seq<State>, events: seq<(Event, int)>, k: nat)
    requires Run(c, states, events) && states[0].stale == {} && k < |states|
    requires forall i :: 0 <= i < |events| ==> Clean(c, states[i], events[i].0)
    ensures states[k].stale == {} && CleanFlight(states[k].flight)
    ensures Quiet(states[k]) ==> forall p :: Copy(states[k].server, p) == Want(c, states[k].vault, p)
  {
    if k > 0 {
      CleanRunStaysInSync(c, states, events, k - 1);
      RunKeepsInv(c, states, events, k - 1);
      CleanStepAddsNothing(c, states[k - 1], events[k - 1].0, events[k - 1].1);
    }
    if Quiet(states[k]) {
      QuietMeansEqual(c, states, events, k);
    }
  }
}
