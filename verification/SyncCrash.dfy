/** Crash safety, exactly: which steps overwrite the queue on disk while a batch is in flight
    (obsidian/src/queue.ts:8-10, 94-139, 206-214). */
module SyncCrash {
  import opened QueueItems
  import opened Batches
  import opened SyncStates
  import opened SyncTheorem

  /** The step enqueues something, which also writes the queue to disk. */
  ghost predicate Enqueues(c: Config, st: State, ev: Event)
    requires Enabled(c, st, ev)
  {
    match ev
    case Create(p, _) => c.Synced(p) && !c.markdown(p)
    case Modify(p, _) => c.Synced(p) && !c.markdown(p)
    case Remove(p) => c.tracked(p)
    case Move(_, n) => c.tracked(n)
    case MetadataChanged(p) => c.Synced(p) && c.markdown(p)
    case DebounceFires(_) => true
    case Reconcile(locals, remotes, manifest, buried) =>
      Outdated(locals, st.vault, manifest) != [] || RemoteOnly(remotes, locals, buried) != []
    case _ => false
  }

  lemma RequestInsideBatch(c: Config, st: State, ev: Event, now: int)
    requires (ev.RenameReply? || ev.DeleteReply?) && Enabled(c, st, ev) && !Next(c, st, ev, now).flight.Idle?
    ensures var st' := Next(c, st, ev, now);
            st'.flight.batch == st.flight.batch && st'.pd == st.pd
  {
    KindItems(st.flight.batch, Renames);
    KindItems(st.flight.batch, Deletes);
  }

  /** A step inside a batch writes the queue without the batch if it enqueues; otherwise it touches
      neither the queue nor what is on disk. */
  lemma StepInsideBatch(c: Config, st: State, ev: Event, now: int)
    requires Enabled(c, st, ev) && !st.flight.Idle? && !Next(c, st, ev, now).flight.Idle?
    ensures var st' := Next(c, st, ev, now);
            && st'.flight.batch == st.flight.batch
            && if Enqueues(c, st, ev) then st'.pd.saved == st'.pd.queue
               else st'.pd.saved == st.pd.saved && st'.pd.queue == st.pd.queue
  {
    if ev.RenameReply? || ev.DeleteReply? {
      RequestInsideBatch(c, st, ev, now);
    }
  }

  ghost predicate QuietBetween(c: Config, states: seq<State>, events: seq<(Event, int)>, j: nat, k: nat)
    requires Run(c, states, events) && k < |states|
  {
    forall i :: j < i < k ==> !Enqueues(c, states[i], events[i].0)
  }

  /** The states after step `j`, which took a batch, up to state `k` all have it in flight. */
  ghost predicate BatchLasts(c: Config, states: seq<State>, events: seq<(Event, int)>, j: nat, k: nat)
    requires Run(c, states, events) && k < |states|
  {
    j < k && events[j].0 == Take && forall i :: j < i <= k ==> !states[i].flight.Idle?
  }

  lemma TakeIsSaved(c: Config, states: seq<State>, events: seq<(Event, int)>, j: nat)
    requires Run(c, states, events) && j < |events| && events[j].0 == Take
    ensures states[j + 1].pd.saved == states[j + 1].flight.batch + states[j + 1].pd.queue
  {
    RunKeepsInv(c, states, events, j);
    assert states[j].pd.queue == states[j + 1].flight.batch + states[j + 1].pd.queue;
  }

  lemma BatchIsNotEmpty(c: Config, states: seq<State>, events: seq<(Event, int)>, k: nat)
    requires Run(c, states, events) && k < |states| && !states[k].flight.Idle?
    ensures states[k].flight.batch != []
  {
    RunKeepsInv(c, states, events, k);
  }

  /** One more step, on the lists alone: `enqueues` says that it wrote the queue without the batch. */
  lemma StillSavedIff(batch: seq<Item>, queue: seq<Item>, saved: seq<Item>, queue': seq<Item>, saved': seq<Item>,
        enqueues: bool)
    requires batch != []
    requires if enqueues then saved' == queue' else saved' == saved && queue' == queue
    ensures saved' == batch + queue' <==> saved == batch + queue && !enqueues
  {
    assert |batch + queue'| > |queue'|;
  }

  /** One more step of a run. */
  lemma RunInsideBatch(c: Config, states: seq<State>, events: seq<(Event, int)>, i: nat)
    requires Run(c, states, events) && i + 1 < |states| && !states[i].flight.Idle? && !states[i + 1].flight.Idle?
    requires states[i + 1].flight.batch != []
    ensures states[i + 1].pd.saved == states[i + 1].flight.batch + states[i + 1].pd.queue
            <==>
            states[i].pd.saved == states[i].flight.batch + states[i].pd.queue && !Enqueues(c, states[i], events[i].0)
  {
    var st, st' := states[i], states[i + 1];
    StepInsideBatch(c, st, events[i].0, events[i].1);
    StillSavedIff(st.flight.batch, st.pd.queue, st.pd.saved, st'.pd.queue, st'.pd.saved,
      Enqueues(c, st, events[i].0));
  }

  ghost predicate Saved(st: State) {
    !st.flight.Idle? && st.pd.saved == st.flight.batch + st.pd.queue
  }

  lemma {:induction false} KeptUntil(kept: seq<bool>, broken: seq<bool>, j: nat, k: nat)
    requires j < k < |kept| && |broken| == |kept| && kept[j + 1]
    requires forall i :: j < i < k ==> (kept[i + 1] <==> kept[i] && !broken[i])
    ensures kept[k] <==> forall i :: j < i < k ==> !broken[i]
  {
    if j + 1 < k {
      KeptUntil(kept, broken, j, k - 1);
    }
  }

  ghost function EnqueuesAt(c: Config, states: seq<State>, events: seq<(Event, int)>, i: nat): bool
    requires Run(c, states, events) && i < |states|
  {
    i < |events| && Enqueues(c, states[i], events[i].0)
  }

  /** While a batch is in flight it is still on disk, in front of the queue, exactly when nothing has
      been enqueued since it was taken. */
  lemma BatchIsSavedIff(c: Config, states: seq<State>, events: seq<(Event, int)>, j: nat, k: nat)
    requires Run(c, states, events) && k < |states| && BatchLasts(c, states, events, j, k)
    ensures Saved(states[k]) <==> QuietBetween(c, states, events, j, k)
  {
    var kept := seq(k + 1, i requires 0 <= i < |states| => Saved(states[i]));
    var broken := seq(k + 1, i requires 0 <= i < |states| && Run(c, states, events) =>
      EnqueuesAt(c, states, events, i));
    TakeIsSaved(c, states, events, j);
    forall i | j < i < k ensures kept[i + 1] <==> kept[i] && !broken[i] {
      BatchIsNotEmpty(c, states, events, i + 1);
      RunInsideBatch(c, states, events, i);
    }
    KeptUntil(kept, broken, j, k);
    assert forall i :: j < i < k ==> (broken[i] <==> Enqueues(c, states[i], events[i].0));
  }

  /** A restart in the middle of a batch finds all that was in flight and queued if and only if nothing
      was enqueued since the batch was taken. */
  lemma RestartKeepsBatchIff(c: Config, states: seq<State>, events: seq<(Event, int)>, j: nat, k: nat,
        server: map<Path, Note>, now: int)
    requires Run(c, states, events) && k < |states| && BatchLasts(c, states, events, j, k)
    requires Enabled(c, states[k], Restart(server))
    ensures Next(c, states[k], Restart(server), now).pd.queue == states[k].flight.batch + states[k].pd.queue
            <==> forall i :: j < i < k ==> !Enqueues(c, states[i], events[i].0)
  {
    BatchIsSavedIff(c, states, events, j, k);
  }

  /** Between batches a restart finds the whole queue. */
  lemma RestartWhenIdle(c: Config, states: seq<State>, events: seq<(Event, int)>, k: nat, server: map<Path, Note>,
        now: int)
    requires Run(c, states, events) && k < |states| && states[k].flight.Idle?
    requires Enabled(c, states[k], Restart(server))
    ensures Next(c, states[k], Restart(server), now).pd.queue == states[k].pd.queue
  {
    RunKeepsInv(c, states, events, k);
  }
}
