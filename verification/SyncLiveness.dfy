/** Without further edits and with requests that succeed the drain loop empties the queue, and what it
    does to the server is what the phased drain of `Reordering` says (obsidian/src/queue.ts:153-204). */
module SyncLiveness {
  import opened Common
  import opened QueueItems
  import opened Batches
  import opened Draining
  import opened SyncStates
  import opened SyncSafety
  import opened SyncRequests
  import opened SyncUpserts
  import opened SyncTheorem
  import opened SyncRuns
  import opened Reordering

  // ---- effects of operations carried out ---------------------------------------------------------

  function CarriedOut(server: map<Path, Note>, op: Op): Effect {
    match op
    case Rename(o, n) => Done(if o in server then Some(server[o]) else NoteAt(server, n))
    case _ => Done(None)
  }

  /** The effects of renames and deletes carried out one after the other. */
  function AllCarriedOut(server: map<Path, Note>, items: seq<Item>, vault: map<Path, File>): (r: seq<Effect>)
    ensures |r| == |items|
  {
    if items == [] then []
    else
      var n := |items| - 1;
      AllCarriedOut(server, items[..n], vault) + [CarriedOut(RunInOrder(server, items[..n], vault), items[n].op)]
  }

  lemma OneCarriedOut(server: map<Path, Note>, op: Op, vault: map<Path, File>)
    requires !op.Upsert?
    ensures HardEffect(server, op, CarriedOut(server, op)) == RunOp(server, op, vault)
  {}

  lemma {:induction false} CarriedOutRuns(server: map<Path, Note>, items: seq<Item>, vault: map<Path, File>)
    requires forall x :: x in items ==> !x.op.Upsert?
    ensures HardEffects(server, items, AllCarriedOut(server, items, vault)) == RunInOrder(server, items, vault)
  {
    if items != [] {
      var n := |items| - 1;
      assert items[n] in items;
      CarriedOutRuns(server, items[..n], vault);
      assert AllCarriedOut(server, items, vault)[..n] == AllCarriedOut(server, items[..n], vault);
      OneCarriedOut(RunInOrder(server, items[..n], vault), items[n].op, vault);
    }
  }

  lemma {:induction false} CarriedOutIsPlausible(server: map<Path, Note>, items: seq<Item>, vault: map<Path, File>)
    ensures Plausible(items, AllCarriedOut(server, items, vault), Success)
    ensures Skipped !in AllCarriedOut(server, items, vault)
  {
    if items != [] {
      CarriedOutIsPlausible(server, items[..|items| - 1], vault);
    }
  }

  /** The rows left by the upserts of a batch. */
  function NotesStored(server: map<Path, Note>, payloads: map<Path, File>): map<Path, Effect> {
    map p | p in payloads :: Done(Some(Stored(server, p, payloads[p])))
  }

  lemma {:induction false} UpsertsStore(server: map<Path, Note>, us: seq<Item>, vault: map<Path, File>, p: Path)
    requires forall i :: 0 <= i < |us| ==> us[i].op.Upsert?
    ensures NoteAt(RunInOrder(server, us, vault), p)
            == if p in Touched(us) && p in vault then Some(Stored(server, p, vault[p])) else NoteAt(server, p)
  {
    if us != [] {
      var n := |us| - 1;
      assert forall i :: 0 <= i < n ==> us[..n][i] == us[i];
      UpsertsStore(server, us[..n], vault, p);
      assert us == us[..n] + [us[n]];
      TouchedConcat(us[..n], [us[n]]);
      TouchedOne(us[n], us[n].op.path);
    }
  }

  lemma {:induction false} NotesStoredRun(server: map<Path, Note>, us: seq<Item>, vault: map<Path, File>)
    requires forall i :: 0 <= i < |us| ==> us[i].op.Upsert?
    ensures SyncEffect(server, NotesStored(server, Payloads(us, vault))) == RunInOrder(server, us, vault)
  {
    var stored, ran := SyncEffect(server, NotesStored(server, Payloads(us, vault))), RunInOrder(server, us, vault);
    forall p ensures NoteAt(stored, p) == NoteAt(ran, p) {
      UpsertsStore(server, us, vault, p);
    }
    SameRows(stored, ran);
  }

  lemma SameRows(a: map<Path, Note>, b: map<Path, Note>)
    requires forall p :: NoteAt(a, p) == NoteAt(b, p)
    ensures a == b
  {
    forall p ensures p in a <==> p in b { assert NoteAt(a, p) == NoteAt(b, p); }
    forall p | p in a ensures a[p] == b[p] { assert NoteAt(a, p) == NoteAt(b, p); }
  }

  // ---- one round, then all of them -----------------------------------------------------------------

  /** There is a round whose requests all succeed, and it does to the server what the batch does when
      run as renames, then deletes, then upserts. */
  lemma RoundRunsPhased(c: Config, st: State, now: int) returns (evs: Events)
    requires Enabled(c, st, Take)
    ensures Feasible(c, st, evs) && Successful(evs)
    ensures var rest := st.pd.queue[Min(c.batchSize, |st.pd.queue|)..];
            After(c, st, evs)
            == State(st.vault, RunInOrder(st.server, Phased(Taken(st.pd.queue, c.batchSize)), st.vault),
                     Pending(st.pd.debounced, rest, rest), Idle, st.stale)
  {
    var batch := Taken(st.pd.queue, c.batchSize);
    var renames, deletes, us := OfKind(batch, Renames), OfKind(batch, Deletes), OfKind(batch, Upserts);
    KindsAre(batch);
    var renamed := AllCarriedOut(st.server, renames, st.vault);
    CarriedOutIsPlausible(st.server, renames, st.vault);
    CarriedOutRuns(st.server, renames, st.vault);
    var server1 := RunInOrder(st.server, renames, st.vault);
    var deleted := AllCarriedOut(server1, deletes, st.vault);
    CarriedOutIsPlausible(server1, deletes, st.vault);
    CarriedOutRuns(server1, deletes, st.vault);
    var server2 := RunInOrder(server1, deletes, st.vault);
    var synced := NotesStored(server2, Payloads(us, st.vault));
    StoredIsPlausible(server2, Payloads(us, st.vault));
    NotesStoredRun(server2, us, st.vault);
    RunConcat(st.server, renames, deletes, st.vault);
    RunConcat(st.server, renames + deletes, us, st.vault);
    RoundAnswered(c, st, renamed, deleted, synced, now);
    RoundSucceeds(c, st, renamed, deleted, synced, now);
    evs := RoundEvents(batch, st.vault, renamed, deleted, synced, now);
    RoundIsSuccessful(batch, st.vault, renamed, deleted, synced, now);
  }

  lemma StoredIsPlausible(server: map<Path, Note>, payloads: map<Path, File>)
    ensures PlausibleSync(payloads, NotesStored(server, payloads))
    ensures UnstoredNotes(payloads, NotesStored(server, payloads), Success) == {}
    ensures forall p :: p in NotesStored(server, payloads) ==> NotesStored(server, payloads)[p].Done?
  {}

  /** Only steps of the drain loop, every request answered without a failure. */
  ghost predicate SuccessfulStep(ev: Event) {
    match ev
    case Take => true
    case RenameReply(reply, effects) => reply == Success && Skipped !in effects
    case DeleteReply(reply, _) => reply == Success
    case ReadNext(outcome) => outcome != BuildFailed
    case SyncReply(reply, synced) => reply == Success && forall p :: p in synced ==> synced[p].Done?
    case _ => false
  }

  ghost predicate Successful(evs: Events) {
    forall e :: e in evs ==> SuccessfulStep(e.0)
  }

  lemma {:induction false} ReadsAreSuccessful(us: seq<Item>, vault: map<Path, File>, now: int)
    requires forall i :: 0 <= i < |us| ==> us[i].op.Upsert?
    ensures Successful(Reads(us, vault, now))
    decreases |us|
  {
    if us != [] {
      ReadsAreSuccessful(us[1..], vault, now);
    }
  }

  lemma RoundIsSuccessful(batch: seq<Item>, vault: map<Path, File>, renamed: seq<Effect>, deleted: seq<Effect>,
        synced: map<Path, Effect>, now: int)
    requires forall i :: 0 <= i < |OfKind(batch, Upserts)| ==> OfKind(batch, Upserts)[i].op.Upsert?
    requires Skipped !in renamed && forall p :: p in synced ==> synced[p].Done?
    ensures Successful(RoundEvents(batch, vault, renamed, deleted, synced, now))
  {
    ReadsAreSuccessful(OfKind(batch, Upserts), vault, now);
  }

  /** Successful rounds work off the whole queue, with the phased drain's effect on the server. */
  lemma {:induction false} RoundsEmptyQueue(c: Config, st: State, now: int) returns (evs: Events)
    requires st.flight.Idle? && c.batchSize > 0
    ensures Feasible(c, st, evs) && Successful(evs)
    ensures var last := After(c, st, evs);
            && last.flight.Idle? && last.pd.queue == [] && last.pd.debounced == st.pd.debounced
            && last.vault == st.vault && last.stale == st.stale
            && last.server == DrainPhased(st.server, st.pd.queue, st.vault, c.batchSize)
    decreases |st.pd.queue|
  {
    if st.pd.queue == [] {
      evs := [];
    } else {
      var first := RoundRunsPhased(c, st, now);
      var mid := After(c, st, first);
      var more := RoundsEmptyQueue(c, mid, now);
      AfterConcat(c, st, first, more);
      evs := first + more;
    }
  }

  lemma QuietIsSafe(c: Config, states: seq<State>, events: Events)
    requires Run(c, states, events) && Quiet(states[|events|])
    ensures var last := states[|events|];
            forall p :: p !in last.stale ==> Copy(last.server, p) == Want(c, last.vault, p)
  {
    var last := states[|events|];
    forall p | p !in last.stale ensures Copy(last.server, p) == Want(c, last.vault, p) {
      SyncIsSafe(c, states, events, |events|, p);
    }
  }

  /** Liveness: every run that is idle with nothing debounced can be continued by successful rounds
      alone until nothing is pending. The server then holds what the phased drain of the queue gives,
      nothing more is stale, and every path that is not stale holds what the vault holds. */
  lemma DrainReachesQuiet(c: Config, states: seq<State>, events: Events, now: int)
    returns (states': seq<State>, more: Events)
    requires Run(c, states, events) && c.batchSize > 0
    requires states[|events|].flight.Idle? && states[|events|].pd.debounced == {}
    ensures Run(c, states', events + more) && states <= states' && Successful(more)
    ensures var st, last := states[|events|], states'[|events + more|];
            && Quiet(last) && last.vault == st.vault && last.stale == st.stale
            && last.server == DrainPhased(st.server, st.pd.queue, st.vault, c.batchSize)
            && forall p :: p !in last.stale ==> Copy(last.server, p) == Want(c, last.vault, p)
  {
    more := RoundsEmptyQueue(c, states[|events|], now);
    states' := RunExtends(c, states, events, more);
    QuietIsSafe(c, states', events + more);
  }

  /** With debounced edits, let their timers fire first. */
  lemma {:induction false} DebouncesFire(c: Config, st: State, now: int) returns (evs: Events)
    requires st.flight.Idle?
    ensures Feasible(c, st, evs) && forall e :: e in evs ==> e.0.DebounceFires?
    ensures var last := After(c, st, evs);
            && last.flight.Idle? && last.pd.debounced == {} && last.vault == st.vault && last.server == st.server
            && last.stale <= st.stale
    decreases st.pd.debounced
  {
    if st.pd.debounced == {} {
      evs := [];
    } else {
      var p :| p in st.pd.debounced;
      var mid := Next(c, st, DebounceFires(p), now);
      var more := DebouncesFire(c, mid, now);
      AfterStep(c, st, DebounceFires(p), now, mid, more, After(c, mid, more));
      evs := [(DebounceFires(p), now)] + more;
    }
  }

  /** An idle state becomes quiet once its debounced edits have fired and its queue has drained. */
  lemma IdleDrains(c: Config, st: State, now: int) returns (evs: Events)
    requires st.flight.Idle? && c.batchSize > 0
    ensures Feasible(c, st, evs) && forall e :: e in evs ==> e.0.DebounceFires? || SuccessfulStep(e.0)
    ensures var last := After(c, st, evs);
            Quiet(last) && last.vault == st.vault && last.stale <= st.stale
  {
    var fired := DebouncesFire(c, st, now);
    var rounds := RoundsEmptyQueue(c, After(c, st, fired), now);
    AfterConcat(c, st, fired, rounds);
    evs := fired + rounds;
  }

  /** Liveness from every idle reachable state: fire the debounced edits, then drain; nothing more is stale. */
  lemma IdleReachesQuiet(c: Config, states: seq<State>, events: Events, now: int)
    returns (states': seq<State>, more: Events)
    requires Run(c, states, events) && c.batchSize > 0 && states[|events|].flight.Idle?
    ensures Run(c, states', events + more) && states <= states'
    ensures forall e :: e in more ==> e.0.DebounceFires? || SuccessfulStep(e.0)
    ensures var st, last := states[|events|], states'[|events + more|];
            && Quiet(last) && last.vault == st.vault && last.stale <= st.stale
            && forall p :: p !in last.stale ==> Copy(last.server, p) == Want(c, last.vault, p)
  {
    more := IdleDrains(c, states[|events|], now);
    states' := RunExtends(c, states, events, more);
    QuietIsSafe(c, states', events + more);
  }

  // ---- a batch in flight ---------------------------------------------------------------------------

  /** An operation of the path has already failed in the batch under way. */
  ghost predicate FailedInFlight(f: Flight, p: Path) {
    match f
    case Idle => false
    case Renaming(_) => false
    case Deleting(_, l) => p in Touched(l.retry)
    case Building(batch, l, outcomes, _) =>
      || p in Touched(l.retry)
      || exists i :: 0 <= i < |outcomes| && i < |OfKind(batch, Upserts)| && outcomes[i] == BuildFailed
                     && p in OpPaths(OfKind(batch, Upserts)[i].op)
  }

  /** The files of the batch that are still to be read. */
  lemma {:induction false} ReadsFinish(c: Config, st: State, now: int) returns (evs: Events)
    requires st.flight.Building? && |st.flight.outcomes| <= |OfKind(st.flight.batch, Upserts)|
    ensures Feasible(c, st, evs) && Successful(evs)
    ensures var last := After(c, st, evs);
            && last.flight.Building? && last == st.(flight := last.flight)
            && last.flight.batch == st.flight.batch && last.flight.lists == st.flight.lists
            && |last.flight.outcomes| == |OfKind(st.flight.batch, Upserts)|
            && forall p :: FailedInFlight(last.flight, p) ==> FailedInFlight(st.flight, p)
    decreases |OfKind(st.flight.batch, Upserts)| - |st.flight.outcomes|
  {
    var us, k := OfKind(st.flight.batch, Upserts), |st.flight.outcomes|;
    if k == |us| {
      evs := [];
    } else {
      UpsertsOnly(st.flight.batch);
      var outcome := OutcomeOf(us[k], st.vault);
      var mid := Next(c, st, ReadNext(outcome), now);
      ReadKeepsFailed(c, st, outcome, now);
      var more := ReadsFinish(c, mid, now);
      AfterStep(c, st, ReadNext(outcome), now, mid, more, After(c, mid, more));
      evs := [(ReadNext(outcome), now)] + more;
    }
  }

  lemma ReadKeepsFailed(c: Config, st: State, outcome: Read, now: int)
    requires Enabled(c, st, ReadNext(outcome)) && outcome != BuildFailed
    ensures var next := Next(c, st, ReadNext(outcome), now).flight;
            && next.Building? && next.batch == st.flight.batch
            && next.lists == st.flight.lists && next.outcomes == st.flight.outcomes + [outcome]
            && forall p :: FailedInFlight(next, p) ==> FailedInFlight(st.flight, p)
  {
    var next, us := Next(c, st, ReadNext(outcome), now).flight, OfKind(st.flight.batch, Upserts);
    forall p | FailedInFlight(next, p) ensures FailedInFlight(st.flight, p) {
      if p !in Touched(st.flight.lists.retry) {
        var i :| 0 <= i < |next.outcomes| && i < |us| && next.outcomes[i] == BuildFailed && p in OpPaths(us[i].op);
        assert st.flight.outcomes[i] == BuildFailed;
      }
    }
  }

  /** What a successful request for the notes puts back failed before. */
  lemma BackFailed(c: Config, st: State, p: Path)
    requires Shape(c, st) && st.flight.Building? && |st.flight.outcomes| == |OfKind(st.flight.batch, Upserts)|
    requires p in Touched(st.flight.lists.retry + UpsertsBack(st, Success))
    ensures FailedInFlight(st.flight, p)
  {
    var us, outcomes, back := OfKind(st.flight.batch, Upserts), st.flight.outcomes, UpsertsBack(st, Success);
    TouchedConcat(st.flight.lists.retry, back);
    if p !in Touched(st.flight.lists.retry) {
      NoneFailed(ByRead(us, outcomes, BuildFailed, true), {});
      ByReadItems(us, outcomes, BuildFailed, false);
      var k :| 0 <= k < |back| && p in OpPaths(back[k].op);
      assert back[k] in ByRead(us, outcomes, BuildFailed, false);
      var i :| 0 <= i < |us| && us[i] == back[k] && outcomes[i] == BuildFailed;
    }
  }

  lemma ExhaustedTouched(items: seq<Item>, max: nat)
    ensures Exhausted(items, max) <= Touched(items)
  {}

  /** All files are read: the request for the notes succeeds. */
  lemma NotesFinish(c: Config, st: State, now: int) returns (ev: Event)
    requires Shape(c, st) && st.flight.Building? && |st.flight.outcomes| == |OfKind(st.flight.batch, Upserts)|
    ensures Enabled(c, st, ev) && SuccessfulStep(ev)
    ensures var next := Next(c, st, ev, now);
            && next.flight.Idle? && next.vault == st.vault
            && forall p :: p in next.stale ==> p in st.stale || FailedInFlight(st.flight, p)
  {
    var synced := NotesStored(st.server, st.flight.payloads);
    ev := SyncReply(Success, synced);
    StoredIsPlausible(st.server, st.flight.payloads);
    SyncRetry(st.flight.batch, st.flight.lists, st.flight.outcomes, Success);
    var retry := st.flight.lists.retry + UpsertsBack(st, Success);
    ExhaustedTouched(retry, c.maxAttempts);
    TouchedConcat(st.flight.lists.retry, UpsertsBack(st, Success));
    assert UpsertPhase(NoLists, OfKind(st.flight.batch, Upserts), st.flight.outcomes, Success).lists.dropped == [];
    assert LostByNotes(c, st, synced, Success) <= Touched(retry);
    forall p | p in Next(c, st, ev, now).stale ensures p in st.stale || FailedInFlight(st.flight, p) {
      if p !in st.stale {
        BackFailed(c, st, p);
      }
    }
  }

  lemma DeletesFinish(c: Config, st: State, now: int) returns (ev: Event)
    requires st.flight.Deleting?
    ensures Enabled(c, st, ev) && SuccessfulStep(ev)
    ensures var next := Next(c, st, ev, now);
            && next.flight.Building? && next.vault == st.vault
            && (forall p :: p in next.stale ==> p in st.stale || FailedInFlight(st.flight, p))
            && (forall p :: FailedInFlight(next.flight, p) ==> FailedInFlight(st.flight, p))
  {
    var deletes := OfKind(st.flight.batch, Deletes);
    var effects := AllCarriedOut(st.server, deletes, st.vault);
    CarriedOutIsPlausible(st.server, deletes, st.vault);
    ev := DeleteReply(Success, effects);
    RequestLists(st.flight.lists, deletes, Success);
    NoneFailed(deletes, {});
    var retry := st.flight.lists.retry;
    assert retry + [] == retry;
    forall p | Restores(retry, p) ensures p in Touched(retry) {
      LastNone(retry, p, true);
    }
  }

  lemma RenamesFinish(c: Config, st: State, now: int) returns (ev: Event)
    requires st.flight.Renaming?
    ensures Enabled(c, st, ev) && SuccessfulStep(ev)
    ensures var next := Next(c, st, ev, now);
            && next.flight.Deleting? && next.vault == st.vault && next.stale <= st.stale
            && forall p :: !FailedInFlight(next.flight, p)
  {
    var renames := OfKind(st.flight.batch, Renames);
    var effects := AllCarriedOut(st.server, renames, st.vault);
    CarriedOutIsPlausible(st.server, renames, st.vault);
    ev := RenameReply(Success, effects);
    RenamesAnswered(c, st, effects, now);
    assert SkippedRenames(renames, effects, Success) == {};
  }

  function RequestsLeft(f: Flight): nat {
    match f
    case Idle => 0
    case Renaming(_) => 3
    case Deleting(_, _) => 2
    case Building(_, _, _, _) => 1
  }

  /** From wherever a batch has got to, its remaining requests can succeed. Only paths of operations that had
      failed before become stale. */
  lemma BatchFinishes(c: Config, st: State, now: int) returns (evs: Events)
    requires Inv(c, st)
    ensures Feasible(c, st, evs) && Successful(evs)
    ensures var last := After(c, st, evs);
            && last.flight.Idle? && last.vault == st.vault
            && forall p :: p in last.stale ==> p in st.stale || FailedInFlight(st.flight, p)
    decreases RequestsLeft(st.flight), 1
  {
    match st.flight
    case Idle => evs := [];
    case Renaming(_) =>
      var ev := RenamesFinish(c, st, now);
      evs := RestFinishes(c, st, ev, now);
    case Deleting(_, _) =>
      var ev := DeletesFinish(c, st, now);
      evs := RestFinishes(c, st, ev, now);
    case Building(_, _, _, _) =>
      var front := ReadsFinish(c, st, now);
      var mid := After(c, st, front);
      InvAfter(c, st, front);
      var ev := NotesFinish(c, mid, now);
      AfterOne(c, mid, ev, now);
      AfterConcat(c, st, front, [(ev, now)]);
      evs := front + [(ev, now)];
  }

  lemma RestFinishes(c: Config, st: State, ev: Event, now: int) returns (evs: Events)
    requires Inv(c, st) && Enabled(c, st, ev) && SuccessfulStep(ev)
    requires var next := Next(c, st, ev, now);
             && next.vault == st.vault
             && ((st.flight.Renaming? && next.flight.Deleting?) || (st.flight.Deleting? && next.flight.Building?))
             && (forall p :: p in next.stale ==> p in st.stale || FailedInFlight(st.flight, p))
             && (forall p :: FailedInFlight(next.flight, p) ==> FailedInFlight(st.flight, p))
    ensures Feasible(c, st, evs) && Successful(evs)
    ensures var last := After(c, st, evs);
            && last.flight.Idle? && last.vault == st.vault
            && forall p :: p in last.stale ==> p in st.stale || FailedInFlight(st.flight, p)
    decreases RequestsLeft(st.flight), 0
  {
    var next := Next(c, st, ev, now);
    NextKeepsInv(c, st, ev, now);
    var more := BatchFinishes(c, next, now);
    AfterStep(c, st, ev, now, next, more, After(c, next, more));
    evs := [(ev, now)] + more;
  }

  lemma {:induction false} InvAfter(c: Config, st: State, evs: Events)
    requires Inv(c, st) && Feasible(c, st, evs)
    ensures Inv(c, After(c, st, evs))
    decreases |evs|
  {
    if evs != [] {
      NextKeepsInv(c, st, evs[0].0, evs[0].1);
      InvAfter(c, Next(c, st, evs[0].0, evs[0].1), evs[1..]);
    }
  }

  /** Liveness from every reachable state: the batch in flight can be finished, the debounced edits fire, and the
      queue drains until nothing is pending. Only paths of operations that had already failed in that batch become
      stale; every other path holds what the vault holds. */
  lemma ReachesQuiet(c: Config, states: seq<State>, events: Events, now: int)
    returns (states': seq<State>, more: Events)
    requires Run(c, states, events) && c.batchSize > 0
    ensures Run(c, states', events + more) && states <= states'
    ensures forall e :: e in more ==> e.0.DebounceFires? || SuccessfulStep(e.0)
    ensures var st, last := states[|events|], states'[|events + more|];
            && Quiet(last) && last.vault == st.vault
            && (forall p :: p in last.stale ==> p in st.stale || FailedInFlight(st.flight, p))
            && forall p :: p !in last.stale ==> Copy(last.server, p) == Want(c, last.vault, p)
  {
    var st := states[|events|];
    RunKeepsInv(c, states, events, |events|);
    var finished := BatchFinishes(c, st, now);
    var drained := IdleDrains(c, After(c, st, finished), now);
    AfterConcat(c, st, finished, drained);
    more := finished + drained;
    states' := RunExtends(c, states, events, more);
    QuietIsSafe(c, states', events + more);
  }
}
