/** Running a list of events, and rounds of the drain loop in which every request succeeds. */
module SyncRuns {
  import opened Common
  import opened QueueItems
  import opened Batches
  import opened Draining
  import opened SyncStates
  import opened SyncSafety
  import opened SyncRequests
  import opened SyncUpserts
  import opened SyncTheorem

  type Events = seq<(Event, int)>

  ghost predicate Feasible(c: Config, st: State, evs: Events)
    decreases |evs|
  {
    evs == [] || (Enabled(c, st, evs[0].0) && Feasible(c, Next(c, st, evs[0].0, evs[0].1), evs[1..]))
  }

  ghost function After(c: Config, st: State, evs: Events): State
    requires Feasible(c, st, evs)
    decreases |evs|
  {
    if evs == [] then st else After(c, Next(c, st, evs[0].0, evs[0].1), evs[1..])
  }

  /** A first event and then more. */
  lemma {:induction false} AfterStep(c: Config, st: State, ev: Event, now: int, mid: State, evs: Events, last: State)
    requires Enabled(c, st, ev) && Next(c, st, ev, now) == mid
    requires Feasible(c, mid, evs) && After(c, mid, evs) == last
    ensures Feasible(c, st, [(ev, now)] + evs) && After(c, st, [(ev, now)] + evs) == last
  {
    assert ([(ev, now)] + evs)[1..] == evs;
  }

  /** One step of a feasible list. */
  lemma {:induction false} AfterFirst(c: Config, st: State, evs: Events)
    requires Feasible(c, st, evs) && evs != []
    ensures Enabled(c, st, evs[0].0)
    ensures var next := Next(c, st, evs[0].0, evs[0].1);
            Feasible(c, next, evs[1..]) && After(c, st, evs) == After(c, next, evs[1..])
  {}

  lemma {:induction false} AfterConcat(c: Config, st: State, a: Events, b: Events)
    requires Feasible(c, st, a) && Feasible(c, After(c, st, a), b)
    ensures Feasible(c, st, a + b) && After(c, st, a + b) == After(c, After(c, st, a), b)
    decreases |a|
  {
    if a == [] {
      assert a + b == b;
    } else {
      assert (a + b)[1..] == a[1..] + b;
      AfterConcat(c, Next(c, st, a[0].0, a[0].1), a[1..], b);
    }
  }

  lemma {:induction false} AfterOne(c: Config, st: State, ev: Event, now: int)
    requires Enabled(c, st, ev)
    ensures Feasible(c, st, [(ev, now)]) && After(c, st, [(ev, now)]) == Next(c, st, ev, now)
  {
    var evs := [(ev, now)];
    assert evs[1..] == [];
  }

  /** A run goes on with any events that are feasible in its last state. */
  lemma RunExtends(c: Config, states: seq<State>, events: Events, more: Events) returns (states': seq<State>)
    requires Run(c, states, events) && Feasible(c, states[|events|], more)
    ensures Run(c, states', events + more) && states <= states'
    ensures states'[|events + more|] == After(c, states[|events|], more)
  {
    states' := RunGoesOn(c, states, events, states[|events|], more, events + more);
  }

  lemma {:induction false} RunGoesOn(c: Config, states: seq<State>, events: Events, st: State, more: Events,
        all: Events)
    returns (states': seq<State>)
    requires Run(c, states, events) && states[|events|] == st && Feasible(c, st, more) && all == events + more
    ensures Run(c, states', all) && states <= states' && states'[|all|] == After(c, st, more)
    decreases |more|
  {
    if more == [] {
      assert all == events;
      states' := states;
    } else {
      assert all == events + [more[0]] + more[1..];
      var next := RunTakes(c, states, events, more);
      states' := RunGoesOn(c, states + [next], events + [more[0]], next, more[1..], all);
    }
  }

  /** The run goes on with the first of the events. */
  lemma {:induction false} RunTakes(c: Config, states: seq<State>, events: Events, more: Events) returns (next: State)
    requires Run(c, states, events) && Feasible(c, states[|events|], more) && more != []
    ensures Run(c, states + [next], events + [more[0]]) && Feasible(c, next, more[1..])
    ensures After(c, states[|events|], more) == After(c, next, more[1..])
  {
    AfterFirst(c, states[|events|], more);
    next := Next(c, states[|events|], more[0].0, more[0].1);
    RunGrows(c, states, events, more[0].0, more[0].1);
  }

  lemma RunGrows(c: Config, states: seq<State>, events: Events, ev: Event, now: int)
    requires Run(c, states, events) && Enabled(c, states[|events|], ev)
    ensures Run(c, states + [Next(c, states[|events|], ev, now)], events + [(ev, now)])
  {
    var states', events' := states + [Next(c, states[|events|], ev, now)], events + [(ev, now)];
    forall i | 0 <= i < |events'|
      ensures Enabled(c, states'[i], events'[i].0)
              && states'[i + 1] == Next(c, states'[i], events'[i].0, events'[i].1)
    {
      if i < |events| {
        assert states'[i] == states[i] && states'[i + 1] == states[i + 1] && events'[i] == events[i];
      }
    }
  }

  // ---- a request in which everything is acknowledged -------------------------------------------

  const Success := Answered({})

  lemma SuccessfulRequest(acked: seq<Item>, items: seq<Item>)
    ensures RequestPhase(Lists(acked, [], []), items, Success) == BatchResult(Lists(acked + items, [], []), false)
  {
    NoneFailed(items, Success.failed);
    assert acked + [] == acked;
  }

  /** Where the earlier requests put nothing back nothing is torn. */
  lemma NothingTorn(c: Config, st: State, reply: Reply)
    requires !st.flight.Idle? && !st.flight.Renaming? && st.flight.lists.retry == []
    ensures st.flight.Deleting? ==> TornByDeletes(st, reply) == {}
    ensures st.flight.Building? && |st.flight.outcomes| == |OfKind(st.flight.batch, Upserts)| ==>
              TornByNotes(c, st, reply) == {}
  {}

  lemma NothingLost(c: Config, vault: map<Path, File>, later: seq<Item>, stale: set<Path>)
    ensures Undecided(c, vault, later, {}) == {} && stale + {} == stale
  {}

  lemma RenamesNotTorn(st: State, renames: seq<Item>)
    requires st.flight.Renaming? && renames == OfKind(st.flight.batch, Renames)
    ensures TornByRenames(st, Success) == {} && Refused(renames, Success) == {}
  {
    NoneFailed(renames, {});
  }

  lemma {:induction false} RenamesAnswered(c: Config, st: State, effects: seq<Effect>, now: int)
    requires st.flight.Renaming? && Plausible(OfKind(st.flight.batch, Renames), effects, Success)
    ensures Enabled(c, st, RenameReply(Success, effects))
    ensures forall x :: x in OfKind(st.flight.batch, Renames) ==> !x.op.Upsert?
    ensures var batch := st.flight.batch;
            var renames := OfKind(batch, Renames);
            Next(c, st, RenameReply(Success, effects), now)
            == State(st.vault, HardEffects(st.server, renames, effects), st.pd, Deleting(batch, Lists(renames, [], [])),
                     st.stale + Undecided(c, st.vault, NotOfKind(batch, Renames) + st.pd.queue,
                                          SkippedRenames(renames, effects, Success)))
  {
    var renames := OfKind(st.flight.batch, Renames);
    KindItems(st.flight.batch, Renames);
    SuccessfulRequest([], renames);
    EmptyFront(renames);
    RenamesNotTorn(st, renames);
    var lost := SkippedRenames(renames, effects, Success);
    assert lost + {} + {} == lost;
  }

  lemma {:induction false} DeletesAnswered(c: Config, st: State, effects: seq<Effect>, now: int)
    requires st.flight.Deleting? && Plausible(OfKind(st.flight.batch, Deletes), effects, Success)
    requires st.flight.lists.retry == [] && st.flight.lists.dropped == []
    ensures Enabled(c, st, DeleteReply(Success, effects))
    ensures forall x :: x in OfKind(st.flight.batch, Deletes) ==> !x.op.Upsert?
    ensures var deletes, acked := OfKind(st.flight.batch, Deletes), st.flight.lists.acked;
            Next(c, st, DeleteReply(Success, effects), now)
            == State(st.vault, HardEffects(st.server, deletes, effects), st.pd,
                     Building(st.flight.batch, Lists(acked + deletes, [], []), [], map[]), st.stale)
  {
    var deletes, acked := OfKind(st.flight.batch, Deletes), st.flight.lists.acked;
    KindItems(st.flight.batch, Deletes);
    SuccessfulRequest(acked, deletes);
    NothingTorn(c, st, Success);
    assert {} + {} == Refused(deletes, Success) + TornByDeletes(st, Success);
    NothingLost(c, st.vault, OfKind(st.flight.batch, Upserts) + st.pd.queue, st.stale);
  }

  // ---- reading the payloads ---------------------------------------------------------------------

  function OutcomeOf(x: Item, vault: map<Path, File>): Read
    requires x.op.Upsert?
  {
    if x.op.path in vault then Built else Vanished
  }

  ghost predicate AllUpserts(us: seq<Item>) {
    forall i :: 0 <= i < |us| ==> us[i].op.Upsert?
  }

  function Outcomes(us: seq<Item>, vault: map<Path, File>): (r: seq<Read>)
    requires forall i :: 0 <= i < |us| ==> us[i].op.Upsert?
    ensures |r| == |us| && forall i :: 0 <= i < |us| ==> r[i] == OutcomeOf(us[i], vault)
  {
    if us == [] then [] else Outcomes(us[..|us| - 1], vault) + [OutcomeOf(us[|us| - 1], vault)]
  }

  function Payloads(us: seq<Item>, vault: map<Path, File>): map<Path, File> {
    map p | p in Touched(us) && p in vault :: vault[p]
  }

  function Reads(us: seq<Item>, vault: map<Path, File>, now: int): Events
    requires forall i :: 0 <= i < |us| ==> us[i].op.Upsert?
    decreases |us|
  {
    if us == [] then [] else [(ReadNext(OutcomeOf(us[0], vault)), now)] + Reads(us[1..], vault, now)
  }

  /** The state after the first `k` files of the batch have been read. */
  function ReadUpTo(st: State, us: seq<Item>, k: nat): State
    requires st.flight.Building? && k <= |us| && forall i :: 0 <= i < |us| ==> us[i].op.Upsert?
  {
    st.(flight := st.flight.(outcomes := Outcomes(us[..k], st.vault), payloads := Payloads(us[..k], st.vault)))
  }

  lemma {:induction false} ReadsGrow(us: seq<Item>, vault: map<Path, File>, k: nat)
    requires AllUpserts(us) && k < |us|
    ensures Outcomes(us[..k + 1], vault) == Outcomes(us[..k], vault) + [OutcomeOf(us[k], vault)]
    ensures var p := us[k].op.path;
            Payloads(us[..k + 1], vault)
            == if p in vault then Payloads(us[..k], vault)[p := vault[p]] else Payloads(us[..k], vault)
  {
    assert us[..k + 1] == us[..k] + [us[k]] && us[..k + 1][..k] == us[..k];
    TouchedConcat(us[..k], [us[k]]);
    TouchedOne(us[k], us[k].op.path);
  }

  lemma TouchedOne(x: Item, p: Path)
    requires x.op == Upsert(p)
    ensures Touched([x]) == {p}
  {
    forall q ensures q in Touched([x]) <==> q == p {
      if q == p {
        assert p in OpPaths([x][0].op);
      }
    }
  }

  lemma ReadOne(c: Config, st: State, us: seq<Item>, k: nat, now: int)
    requires st.flight.Building? && us == OfKind(st.flight.batch, Upserts) && AllUpserts(us) && k < |us|
    ensures var ev := ReadNext(OutcomeOf(us[k], st.vault));
            Enabled(c, ReadUpTo(st, us, k), ev) && Next(c, ReadUpTo(st, us, k), ev, now) == ReadUpTo(st, us, k + 1)
  {
    ReadsGrow(us, st.vault, k);
  }

  lemma {:induction false} ReadsSucceed(c: Config, st: State, us: seq<Item>, k: nat, now: int)
    requires st.flight.Building? && us == OfKind(st.flight.batch, Upserts) && AllUpserts(us) && k <= |us|
    ensures Feasible(c, ReadUpTo(st, us, k), Reads(us[k..], st.vault, now))
    ensures After(c, ReadUpTo(st, us, k), Reads(us[k..], st.vault, now)) == ReadUpTo(st, us, |us|)
    decreases |us| - k
  {
    if k < |us| {
      ReadOne(c, st, us, k, now);
      ReadsSucceed(c, st, us, k + 1, now);
      assert us[k..][1..] == us[k + 1..];
      AfterStep(c, ReadUpTo(st, us, k), ReadNext(OutcomeOf(us[k], st.vault)), now, ReadUpTo(st, us, k + 1),
        Reads(us[k + 1..], st.vault, now), ReadUpTo(st, us, |us|));
    }
  }

  // ---- the note request -----------------------------------------------------------------------

  lemma {:induction false} NoBuildFailed(us: seq<Item>, vault: map<Path, File>)
    requires AllUpserts(us)
    ensures ByRead(us, Outcomes(us, vault), BuildFailed, false) == []
  {
    if us != [] {
      var n := |us| - 1;
      assert Outcomes(us, vault)[..n] == Outcomes(us[..n], vault);
      NoBuildFailed(us[..n], vault);
    }
  }

  lemma {:induction false} SuccessfulUpserts(l: Lists, us: seq<Item>, vault: map<Path, File>)
    requires AllUpserts(us) && l.retry == [] && l.dropped == []
    ensures var res := UpsertPhase(l, us, Outcomes(us, vault), Success);
            !res.stop && res.lists.retry == [] && res.lists.dropped == []
  {
    NoBuildFailed(us, vault);
    NoneFailed(ByRead(us, Outcomes(us, vault), BuildFailed, true), Success.failed);
  }

  ghost predicate Clear(l: Lists, batch: seq<Item>) {
    l.retry == [] && l.dropped == [] && Classifies(batch, l, {Renames, Deletes})
  }

  lemma NotesAnswered(c: Config, st: State, synced: map<Path, Effect>, now: int)
    requires st.flight.Building? && Clear(st.flight.lists, st.flight.batch)
    requires var us := OfKind(st.flight.batch, Upserts);
             && AllUpserts(us) && st.flight.outcomes == Outcomes(us, st.vault)
             && PlausibleSync(st.flight.payloads, synced)
    ensures Enabled(c, st, SyncReply(Success, synced))
    ensures Next(c, st, SyncReply(Success, synced), now)
            == State(st.vault, SyncEffect(st.server, synced), st.pd.Put(st.pd.queue), Idle,
                     st.stale + Undecided(c, st.vault, st.pd.queue,
                                          UnstoredNotes(st.flight.payloads, synced, Success)))
  {
    var batch, l, us := st.flight.batch, st.flight.lists, OfKind(st.flight.batch, Upserts);
    var res := UpsertPhase(l, us, st.flight.outcomes, Success);
    SuccessfulUpserts(l, us, st.vault);
    SuccessfulUpserts(NoLists, us, st.vault);
    SyncRetry(batch, l, st.flight.outcomes, Success);
    assert ToRetry(batch, res.lists) == [];
    NothingTorn(c, st, Success);
    var lost := UnstoredNotes(st.flight.payloads, synced, Success);
    assert LostByNotes(c, st, synced, Success) == lost + {} + Touched([]) == lost;
    FinishWithNothing(c, st, batch, res.lists, SyncEffect(st.server, synced), lost);
  }

  lemma FinishWithNothing(c: Config, st: State, batch: seq<Item>, l: Lists, server: map<Path, Note>, lost: set<Path>)
    requires ToRetry(batch, l) == []
    ensures Finish(c, st, batch, l, server, lost)
            == State(st.vault, server, st.pd.Put(st.pd.queue), Idle,
                     st.stale + Undecided(c, st.vault, st.pd.queue, lost))
  {
    EmptyFront(st.pd.queue);
    assert lost + {} == lost;
  }

  // ---- a whole round ---------------------------------------------------------------------------

  /** The steps of a round up to the last file read. */
  function FrontEvents(batch: seq<Item>, vault: map<Path, File>, renamed: seq<Effect>, deleted: seq<Effect>, now: int)
    : Events
    requires forall i :: 0 <= i < |OfKind(batch, Upserts)| ==> OfKind(batch, Upserts)[i].op.Upsert?
  {
    [(Take, now)] + ([(RenameReply(Success, renamed), now)] + ([(DeleteReply(Success, deleted), now)]
                     + Reads(OfKind(batch, Upserts), vault, now)))
  }

  function RoundEvents(batch: seq<Item>, vault: map<Path, File>, renamed: seq<Effect>, deleted: seq<Effect>,
        synced: map<Path, Effect>, now: int): Events
    requires forall i :: 0 <= i < |OfKind(batch, Upserts)| ==> OfKind(batch, Upserts)[i].op.Upsert?
  {
    FrontEvents(batch, vault, renamed, deleted, now) + [(SyncReply(Success, synced), now)]
  }

  lemma KindsAre(batch: seq<Item>)
    ensures AllUpserts(OfKind(batch, Upserts))
    ensures forall x :: x in OfKind(batch, Renames) ==> x.op.Rename?
    ensures forall x :: x in OfKind(batch, Deletes) ==> x.op.Delete?
    ensures Classifies(batch, Lists(OfKind(batch, Renames) + OfKind(batch, Deletes), [], []), {Renames, Deletes})
  {
    UpsertsOnly(batch);
    KindItems(batch, Renames);
    KindItems(batch, Deletes);
  }

  lemma {:induction false} ReadAll(c: Config, st: State, now: int)
    requires st.flight.Building? && st.flight.outcomes == [] && st.flight.payloads == map[]
    requires AllUpserts(OfKind(st.flight.batch, Upserts))
    ensures var us := OfKind(st.flight.batch, Upserts);
            && Feasible(c, st, Reads(us, st.vault, now))
            && After(c, st, Reads(us, st.vault, now))
               == st.(flight := st.flight.(outcomes := Outcomes(us, st.vault), payloads := Payloads(us, st.vault)))
  {
    var us := OfKind(st.flight.batch, Upserts);
    assert us[..0] == [] && us[0..] == us && us[..|us|] == us;
    assert Payloads([], st.vault) == map[];
    assert ReadUpTo(st, us, 0) == st;
    ReadsSucceed(c, st, us, 0, now);
  }

  /** A round up to its last request. */
  lemma {:induction false} FrontAnswered(c: Config, st: State, renamed: seq<Effect>, deleted: seq<Effect>, now: int)
    requires Enabled(c, st, Take)
    requires var batch := Taken(st.pd.queue, c.batchSize);
             && Plausible(OfKind(batch, Renames), renamed, Success)
             && Plausible(OfKind(batch, Deletes), deleted, Success)
    ensures var batch := Taken(st.pd.queue, c.batchSize);
            var rest := st.pd.queue[Min(c.batchSize, |st.pd.queue|)..];
            var renames, deletes, us := OfKind(batch, Renames), OfKind(batch, Deletes), OfKind(batch, Upserts);
            && AllUpserts(us)
            && (forall x :: x in renames ==> !x.op.Upsert?) && (forall x :: x in deletes ==> !x.op.Upsert?)
            && var evs := FrontEvents(batch, st.vault, renamed, deleted, now);
            && Feasible(c, st, evs)
            && After(c, st, evs)
               == State(st.vault, HardEffects(HardEffects(st.server, renames, renamed), deletes, deleted),
                        Pending(st.pd.debounced, rest, st.pd.saved),
                        Building(batch, Lists(renames + deletes, [], []), Outcomes(us, st.vault),
                                 Payloads(us, st.vault)),
                        st.stale + Undecided(c, st.vault, NotOfKind(batch, Renames) + rest,
                                             SkippedRenames(renames, renamed, Success)))
  {
    var batch := Taken(st.pd.queue, c.batchSize);
    KindsAre(batch);
    var s1 := Next(c, st, Take, now);
    RenamesAnswered(c, s1, renamed, now);
    var s2 := Next(c, s1, RenameReply(Success, renamed), now);
    DeletesAnswered(c, s2, deleted, now);
    var s3 := Next(c, s2, DeleteReply(Success, deleted), now);
    ReadAll(c, s3, now);
    var tail := Reads(OfKind(batch, Upserts), st.vault, now);
    var last := After(c, s3, tail);
    AfterStep(c, s2, DeleteReply(Success, deleted), now, s3, tail, last);
    var tail2 := [(DeleteReply(Success, deleted), now)] + tail;
    AfterStep(c, s1, RenameReply(Success, renamed), now, s2, tail2, last);
    AfterStep(c, st, Take, now, s1, [(RenameReply(Success, renamed), now)] + tail2, last);
  }

  /** The round's effects are possible for the batch that would be taken. */
  ghost predicate PlausibleRound(c: Config, st: State, renamed: seq<Effect>, deleted: seq<Effect>,
        synced: map<Path, Effect>)
  {
    var batch := Taken(st.pd.queue, c.batchSize);
    && Plausible(OfKind(batch, Renames), renamed, Success)
    && Plausible(OfKind(batch, Deletes), deleted, Success)
    && PlausibleSync(Payloads(OfKind(batch, Upserts), st.vault), synced)
  }

  /** A round in which every request is answered without failures, whatever the server does: it ends idle
      with the batch gone and nothing put back; only what the server skipped is stale. */
  lemma {:induction false} RoundAnswered(c: Config, st: State, renamed: seq<Effect>, deleted: seq<Effect>,
        synced: map<Path, Effect>, now: int)
    requires Enabled(c, st, Take) && PlausibleRound(c, st, renamed, deleted, synced)
    ensures var batch := Taken(st.pd.queue, c.batchSize);
            var rest := st.pd.queue[Min(c.batchSize, |st.pd.queue|)..];
            var renames, deletes := OfKind(batch, Renames), OfKind(batch, Deletes);
            && AllUpserts(OfKind(batch, Upserts))
            && (forall x :: x in renames ==> !x.op.Upsert?) && (forall x :: x in deletes ==> !x.op.Upsert?)
            && var evs := RoundEvents(batch, st.vault, renamed, deleted, synced, now);
            && Feasible(c, st, evs)
            && After(c, st, evs)
               == State(st.vault,
                        SyncEffect(HardEffects(HardEffects(st.server, renames, renamed), deletes, deleted), synced),
                        Pending(st.pd.debounced, rest, rest), Idle,
                        st.stale
                        + Undecided(c, st.vault, NotOfKind(batch, Renames) + rest,
                                    SkippedRenames(renames, renamed, Success))
                        + Undecided(c, st.vault, rest,
                                    UnstoredNotes(Payloads(OfKind(batch, Upserts), st.vault), synced, Success)))
  {
    var batch := Taken(st.pd.queue, c.batchSize);
    KindsAre(batch);
    FrontAnswered(c, st, renamed, deleted, now);
    var front := FrontEvents(batch, st.vault, renamed, deleted, now);
    var mid := After(c, st, front);
    NotesAnswered(c, mid, synced, now);
    AfterOne(c, mid, SyncReply(Success, synced), now);
    AfterConcat(c, st, front, [(SyncReply(Success, synced), now)]);
  }

  /** If the server skips no rename and stores every note, nothing becomes stale. */
  lemma {:induction false} RoundSucceeds(c: Config, st: State, renamed: seq<Effect>, deleted: seq<Effect>,
        synced: map<Path, Effect>, now: int)
    requires Enabled(c, st, Take) && PlausibleRound(c, st, renamed, deleted, synced)
    requires Skipped !in renamed
    requires UnstoredNotes(Payloads(OfKind(Taken(st.pd.queue, c.batchSize), Upserts), st.vault), synced, Success) == {}
    ensures AllUpserts(OfKind(Taken(st.pd.queue, c.batchSize), Upserts))
    ensures var evs := RoundEvents(Taken(st.pd.queue, c.batchSize), st.vault, renamed, deleted, synced, now);
            Feasible(c, st, evs) && After(c, st, evs).stale == st.stale
  {
    RoundAnswered(c, st, renamed, deleted, synced, now);
    var renames := OfKind(Taken(st.pd.queue, c.batchSize), Renames);
    assert SkippedRenames(renames, renamed, Success) == {};
    var rest := st.pd.queue[Min(c.batchSize, |st.pd.queue|)..];
    NothingLost(c, st.vault, NotOfKind(Taken(st.pd.queue, c.batchSize), Renames) + rest, st.stale);
    NothingLost(c, st.vault, rest, st.stale);
  }

  // ---- a round with any answers ------------------------------------------------------------------

  /** The replies are possible with these effects for the batch that would be taken. */
  ghost predicate PlausibleReplies(c: Config, st: State, renameReply: Reply, renamed: seq<Effect>, deleteReply: Reply,
        deleted: seq<Effect>, synced: map<Path, Effect>)
  {
    var batch := Taken(st.pd.queue, c.batchSize);
    && Plausible(OfKind(batch, Renames), renamed, renameReply)
    && Plausible(OfKind(batch, Deletes), deleted, deleteReply)
    && PlausibleSync(Payloads(OfKind(batch, Upserts), st.vault), synced)
  }

  /** The server after as many requests of the batch as were made. */
  function ServerAfter(server: map<Path, Note>, batch: seq<Item>, renameReply: Reply, renamed: seq<Effect>,
        deleteReply: Reply, deleted: seq<Effect>, synced: map<Path, Effect>): map<Path, Note>
    requires |OfKind(batch, Renames)| == |renamed| && |OfKind(batch, Deletes)| == |deleted|
    requires forall x :: x in OfKind(batch, Renames) + OfKind(batch, Deletes) ==> !x.op.Upsert?
  {
    var renames, deletes := OfKind(batch, Renames), OfKind(batch, Deletes);
    assert forall x :: x in renames || x in deletes ==> x in renames + deletes;
    var a := RequestPhase(NoLists, renames, renameReply);
    var server1 := HardEffects(server, renames, renamed);
    if a.stop then server1
    else
      var server2 := HardEffects(server1, deletes, deleted);
      if RequestPhase(a.lists, deletes, deleteReply).stop then server2 else SyncEffect(server2, synced)
  }

  /** A round up to the last file read, when neither of the first two requests stops. */
  lemma FrontReplied(c: Config, st: State, renameReply: Reply, renamed: seq<Effect>, deleteReply: Reply,
        deleted: seq<Effect>, now: int)
    returns (evs: Events, stale: set<Path>)
    requires Enabled(c, st, Take)
    requires var batch := Taken(st.pd.queue, c.batchSize);
             && Plausible(OfKind(batch, Renames), renamed, renameReply)
             && Plausible(OfKind(batch, Deletes), deleted, deleteReply)
    requires var batch := Taken(st.pd.queue, c.batchSize);
             var a := RequestPhase(NoLists, OfKind(batch, Renames), renameReply);
             !a.stop && !RequestPhase(a.lists, OfKind(batch, Deletes), deleteReply).stop
    ensures var batch := Taken(st.pd.queue, c.batchSize);
            var renames, deletes, us := OfKind(batch, Renames), OfKind(batch, Deletes), OfKind(batch, Upserts);
            var a := RequestPhase(NoLists, renames, renameReply).lists;
            && AllUpserts(us)
            && (forall x :: x in renames ==> !x.op.Upsert?) && (forall x :: x in deletes ==> !x.op.Upsert?)
            && Feasible(c, st, evs)
            && After(c, st, evs)
               == State(st.vault, HardEffects(HardEffects(st.server, renames, renamed), deletes, deleted),
                        Pending(st.pd.debounced, st.pd.queue[Min(c.batchSize, |st.pd.queue|)..], st.pd.saved),
                        Building(batch, RequestPhase(a, deletes, deleteReply).lists, Outcomes(us, st.vault),
                                 Payloads(us, st.vault)),
                        stale)
  {
    var batch := Taken(st.pd.queue, c.batchSize);
    KindsAre(batch);
    var s1 := Next(c, st, Take, now);
    var s2 := Next(c, s1, RenameReply(renameReply, renamed), now);
    var s3 := Next(c, s2, DeleteReply(deleteReply, deleted), now);
    ReadAll(c, s3, now);
    var tail := Reads(OfKind(batch, Upserts), st.vault, now);
    var last := After(c, s3, tail);
    AfterStep(c, s2, DeleteReply(deleteReply, deleted), now, s3, tail, last);
    var tail2 := [(DeleteReply(deleteReply, deleted), now)] + tail;
    AfterStep(c, s1, RenameReply(renameReply, renamed), now, s2, tail2, last);
    AfterStep(c, st, Take, now, s1, [(RenameReply(renameReply, renamed), now)] + tail2, last);
    evs, stale := [(Take, now)] + ([(RenameReply(renameReply, renamed), now)] + tail2), last.stale;
  }

  /** A round that the rename request stops. */
  lemma RenameStops(c: Config, st: State, reply: Reply, renamed: seq<Effect>, now: int) returns (evs: Events)
    requires Enabled(c, st, Take)
    requires var renames := OfKind(Taken(st.pd.queue, c.batchSize), Renames);
             Plausible(renames, renamed, reply) && RequestPhase(NoLists, renames, reply).stop
    ensures Feasible(c, st, evs)
    ensures var batch := Taken(st.pd.queue, c.batchSize);
            var renames, last := OfKind(batch, Renames), After(c, st, evs);
            && (forall x :: x in renames ==> !x.op.Upsert?)
            && last.vault == st.vault && last.flight.Idle? && last.server == HardEffects(st.server, renames, renamed)
            && last.pd == st.pd.Put(Leftover(st.pd.queue, RequestPhase(NoLists, renames, reply), c.batchSize,
                                             c.maxAttempts))
  {
    var batch := Taken(st.pd.queue, c.batchSize);
    KindsAre(batch);
    var s1 := Next(c, st, Take, now);
    AfterOne(c, s1, RenameReply(reply, renamed), now);
    AfterStep(c, st, Take, now, s1, [(RenameReply(reply, renamed), now)],
      Next(c, s1, RenameReply(reply, renamed), now));
    evs := [(Take, now)] + [(RenameReply(reply, renamed), now)];
  }

  /** A round that the delete request stops. */
  lemma DeleteStops(c: Config, st: State, renameReply: Reply, renamed: seq<Effect>, reply: Reply, deleted: seq<Effect>,
        now: int)
    returns (evs: Events)
    requires Enabled(c, st, Take)
    requires var batch := Taken(st.pd.queue, c.batchSize);
             && Plausible(OfKind(batch, Renames), renamed, renameReply)
             && Plausible(OfKind(batch, Deletes), deleted, reply)
    requires var batch := Taken(st.pd.queue, c.batchSize);
             var a := RequestPhase(NoLists, OfKind(batch, Renames), renameReply);
             !a.stop && RequestPhase(a.lists, OfKind(batch, Deletes), reply).stop
    ensures Feasible(c, st, evs)
    ensures var batch := Taken(st.pd.queue, c.batchSize);
            var renames, deletes := OfKind(batch, Renames), OfKind(batch, Deletes);
            var last, res := After(c, st, evs),
                RequestPhase(RequestPhase(NoLists, renames, renameReply).lists, deletes, reply);
            && (forall x :: x in renames ==> !x.op.Upsert?) && (forall x :: x in deletes ==> !x.op.Upsert?)
            && last.vault == st.vault && last.flight.Idle?
            && last.server == HardEffects(HardEffects(st.server, renames, renamed), deletes, deleted)
            && last.pd == st.pd.Put(Leftover(st.pd.queue, res, c.batchSize, c.maxAttempts))
  {
    var batch := Taken(st.pd.queue, c.batchSize);
    KindsAre(batch);
    var s1 := Next(c, st, Take, now);
    var s2 := Next(c, s1, RenameReply(renameReply, renamed), now);
    var last := Next(c, s2, DeleteReply(reply, deleted), now);
    AfterOne(c, s2, DeleteReply(reply, deleted), now);
    AfterStep(c, s1, RenameReply(renameReply, renamed), now, s2, [(DeleteReply(reply, deleted), now)], last);
    var tail := [(RenameReply(renameReply, renamed), now)] + [(DeleteReply(reply, deleted), now)];
    AfterStep(c, st, Take, now, s1, tail, last);
    evs := [(Take, now)] + tail;
  }

  lemma NotesReplied(c: Config, st: State, reply: Reply, synced: map<Path, Effect>, now: int)
    requires Enabled(c, st, SyncReply(reply, synced))
    ensures var res := UpsertPhase(st.flight.lists, OfKind(st.flight.batch, Upserts), st.flight.outcomes, reply);
            var last := Next(c, st, SyncReply(reply, synced), now);
            && last.vault == st.vault && last.flight.Idle? && last.server == SyncEffect(st.server, synced)
            && last.pd == st.pd.Put(PutBack(st.flight.batch, res.lists, c.maxAttempts) + st.pd.queue)
  {}

  /** A round that reaches the request for the notes. */
  lemma RoundReplied(c: Config, st: State, renameReply: Reply, renamed: seq<Effect>, deleteReply: Reply,
        deleted: seq<Effect>, reply: Reply, synced: map<Path, Effect>, now: int)
    returns (evs: Events)
    requires Enabled(c, st, Take)
    requires PlausibleReplies(c, st, renameReply, renamed, deleteReply, deleted, synced)
    requires var batch := Taken(st.pd.queue, c.batchSize);
             var a := RequestPhase(NoLists, OfKind(batch, Renames), renameReply);
             !a.stop && !RequestPhase(a.lists, OfKind(batch, Deletes), deleteReply).stop
    ensures Feasible(c, st, evs)
    ensures var batch, last := Taken(st.pd.queue, c.batchSize), After(c, st, evs);
            var renames, deletes, us := OfKind(batch, Renames), OfKind(batch, Deletes), OfKind(batch, Upserts);
            && AllUpserts(us)
            && (forall x :: x in renames ==> !x.op.Upsert?) && (forall x :: x in deletes ==> !x.op.Upsert?)
            && var lists := RequestPhase(RequestPhase(NoLists, renames, renameReply).lists, deletes, deleteReply).lists;
            var res := UpsertPhase(lists, us, Outcomes(us, st.vault), reply);
            && last.vault == st.vault && last.flight.Idle?
            && last.pd == st.pd.Put(Leftover(st.pd.queue, res, c.batchSize, c.maxAttempts))
            && last.server
               == SyncEffect(HardEffects(HardEffects(st.server, renames, renamed), deletes, deleted), synced)
  {
    var front, stale := FrontReplied(c, st, renameReply, renamed, deleteReply, deleted, now);
    var mid := After(c, st, front);
    NotesReplied(c, mid, reply, synced, now);
    AfterOne(c, mid, SyncReply(reply, synced), now);
    AfterConcat(c, st, front, [(SyncReply(reply, synced), now)]);
    evs := front + [(SyncReply(reply, synced), now)];
  }

  /** A round with any three replies and effects, whether or not it stops: its steps put back exactly what one turn of
      the drain loop puts back on the verdict of `Batches.ProcessBatch` for these replies. */
  lemma RoundIsVerdict(c: Config, st: State, renameReply: Reply, renamed: seq<Effect>, deleteReply: Reply,
        deleted: seq<Effect>, syncReply: Reply, synced: map<Path, Effect>, now: int)
    returns (evs: Events)
    requires Enabled(c, st, Take)
    requires PlausibleReplies(c, st, renameReply, renamed, deleteReply, deleted, synced)
    ensures Feasible(c, st, evs)
    ensures var batch, last := Taken(st.pd.queue, c.batchSize), After(c, st, evs);
            && AllUpserts(OfKind(batch, Upserts))
            && (forall x :: x in OfKind(batch, Renames) + OfKind(batch, Deletes) ==> !x.op.Upsert?)
            && var res := BatchVerdict(batch, renameReply, deleteReply, Outcomes(OfKind(batch, Upserts), st.vault),
                                       syncReply);
            && last.vault == st.vault && last.flight.Idle?
            && last.pd == st.pd.Put(Leftover(st.pd.queue, res, c.batchSize, c.maxAttempts))
            && last.server == ServerAfter(st.server, batch, renameReply, renamed, deleteReply, deleted, synced)
  {
    var batch := Taken(st.pd.queue, c.batchSize);
    KindsAre(batch);
    var a := RequestPhase(NoLists, OfKind(batch, Renames), renameReply);
    if a.stop {
      evs := RenameStops(c, st, renameReply, renamed, now);
    } else if RequestPhase(a.lists, OfKind(batch, Deletes), deleteReply).stop {
      evs := DeleteStops(c, st, renameReply, renamed, deleteReply, deleted, now);
    } else {
      evs := RoundReplied(c, st, renameReply, renamed, deleteReply, deleted, syncReply, synced, now);
    }
  }
}
