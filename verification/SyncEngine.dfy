/** The engine as an object: vault event handlers, the reconcile diff, and the adaptive reconcile
    interval (obsidian/src/sync-engine.ts, obsidian/src/main.ts). Each handler is proved against the
    function of the step system that models it. */
module SyncEngines {
  import opened Common
  import opened QueueItems
  import opened SyncStates
  import opened SyncTheorem
  import opened PersistentQueues

  const TOMBSTONE_TTL_MS := 24 * 60 * 60 * 1000
  const MAX_BACKOFF_MULTIPLIER: nat := 8
  const BACKOFF_CAP: nat := 3  // log2 of the maximal multiplier

  function Multiplier(streak: nat): nat {
    Min(Pow2(streak), MAX_BACKOFF_MULTIPLIER)
  }

  lemma {:induction false} Pow2AtLeast(n: nat)
    ensures n >= BACKOFF_CAP ==> Pow2(n) >= MAX_BACKOFF_MULTIPLIER
    decreases n
  {
    if n > BACKOFF_CAP {
      Pow2AtLeast(n - 1);
    }
  }

  /** The interval changes exactly when the capped streak does, so re-arming on those changes is enough. */
  lemma MultiplierFollowsCap(s: nat, t: nat)
    ensures Multiplier(s) == Multiplier(t) <==> Min(s, BACKOFF_CAP) == Min(t, BACKOFF_CAP)
  {
    Pow2AtLeast(s);
    Pow2AtLeast(t);
    assert Pow2(0) == 1 && Pow2(1) == 2 && Pow2(2) == 4 && Pow2(3) == 8;
  }

  /** The multiplier doubles with each idle pass, from one up to eight. */
  lemma MultiplierValues(streak: nat)
    ensures Multiplier(streak) == if streak == 0 then 1 else if streak == 1 then 2 else if streak == 2 then 4 else 8
  {
    Pow2AtLeast(streak);
    assert Pow2(0) == 1 && Pow2(1) == 2 && Pow2(2) == 4 && Pow2(3) == 8;
  }

  /** Paths whose deletion is too recent for a reconcile to delete them again. */
  function Buried(tombstones: map<Path, int>, now: int): set<Path> {
    set p | p in tombstones && tombstones[p] != 0 && now - tombstones[p] < TOMBSTONE_TTL_MS
  }

  function PruneTombstones(tombstones: map<Path, int>, now: int): map<Path, int> {
    map p | p in tombstones && tombstones[p] >= now - TOMBSTONE_TTL_MS :: tombstones[p]
  }

  /** Pruning forgets no tombstone that any later reconcile would still respect. */
  lemma PruningIsHarmless(tombstones: map<Path, int>, now: int, later: int)
    requires now <= later
    ensures Buried(PruneTombstones(tombstones, now), later) == Buried(tombstones, later)
  {}

  /** An interval timer: each one that is armed has an id of its own. */
  datatype Timer = Timer(id: nat, intervalMs: int)

  class SyncEngine {
    const queue: PersistentQueue
    const config: Config
    const syncIntervalMinutes: int
    var pendingMdEdits: set<Path>
    var idleReconcileStreak: nat
    var tombstones: map<Path, int>
    /** The armed reconcile timer; it belongs to the plugin object. */
    var reconcileTimer: Option<Timer>
    /** The id that the next timer will get. */
    var nextTimerId: nat

    ghost predicate Valid()
      reads this, queue
    {
      queue.Valid() && TimerAgrees()
    }

    /** The armed interval is the base interval times the current multiplier. */
    ghost predicate TimerAgrees()
      reads `idleReconcileStreak, `reconcileTimer, `nextTimerId
    {
      if syncIntervalMinutes <= 0 then reconcileTimer.None?
      else
        && reconcileTimer.Some? && reconcileTimer.value.id < nextTimerId
        && reconcileTimer.value.intervalMs == syncIntervalMinutes * 60 * 1000 * Multiplier(idleReconcileStreak)
    }

    ghost function View(): Pending
      reads this, queue
    {
      Pending(pendingMdEdits, queue.items, queue.saved)
    }

    /** Tombstones come from the settings of the last session; edits still debounced then are gone. */
    constructor (queue: PersistentQueue, config: Config, syncIntervalMinutes: int, tombstones: map<Path, int>)
      requires queue.Valid()
      ensures Valid() && this.queue == queue && this.config == config && this.syncIntervalMinutes == syncIntervalMinutes
      ensures View() == Pending({}, queue.items, queue.saved) && idleReconcileStreak == 0
      ensures this.tombstones == tombstones
    {
      this.queue, this.config, this.syncIntervalMinutes := queue, config, syncIntervalMinutes;
      this.tombstones, pendingMdEdits, idleReconcileStreak := tombstones, {}, 0;
      reconcileTimer, nextTimerId := None, 0;
      new;
      RestartReconcileTimer();
    }

    // ---- backoff ---------------------------------------------------------------

    function GetReconcileBackoffMs(baseMs: int): int
      reads `idleReconcileStreak
    {
      baseMs * Min(Pow2(idleReconcileStreak), MAX_BACKOFF_MULTIPLIER)
    }

    /** The timer is cleared and, unless the setting turns it off, armed anew. */
    method RestartReconcileTimer()
      modifies `reconcileTimer, `nextTimerId
      ensures TimerAgrees()
      ensures syncIntervalMinutes > 0 ==>
                reconcileTimer.value.intervalMs
                == 60_000 * syncIntervalMinutes
                   * if idleReconcileStreak == 0 then 1 else if idleReconcileStreak == 1 then 2
                     else if idleReconcileStreak == 2 then 4 else 8
      ensures if syncIntervalMinutes <= 0 then reconcileTimer.None? && nextTimerId == old(nextTimerId)
              else reconcileTimer.value.id == old(nextTimerId) && nextTimerId == old(nextTimerId) + 1
    {
      MultiplierValues(idleReconcileStreak);
      reconcileTimer := None;
      if syncIntervalMinutes <= 0 {
        return;
      }
      reconcileTimer := Some(Timer(nextTimerId, GetReconcileBackoffMs(syncIntervalMinutes * 60 * 1000)));
      nextTimerId := nextTimerId + 1;
    }

    method ResetIdleStreak()
      requires TimerAgrees()
      modifies `idleReconcileStreak, `reconcileTimer, `nextTimerId
      ensures TimerAgrees() && idleReconcileStreak == 0
      ensures if old(idleReconcileStreak) == 0 then reconcileTimer == old(reconcileTimer)
              else syncIntervalMinutes > 0 ==> reconcileTimer.value.id == old(nextTimerId)
    {
      if idleReconcileStreak == 0 {
        return;
      }
      idleReconcileStreak := 0;
      RestartReconcileTimer();
    }

    method UpdateIdleStreak(enqueued: nat)
      requires TimerAgrees()
      modifies `idleReconcileStreak, `reconcileTimer, `nextTimerId
      ensures TimerAgrees() && idleReconcileStreak == if enqueued == 0 then old(idleReconcileStreak) + 1 else 0
      ensures if Min(idleReconcileStreak, BACKOFF_CAP) == Min(old(idleReconcileStreak), BACKOFF_CAP)
              then reconcileTimer == old(reconcileTimer)
              else syncIntervalMinutes > 0 ==> reconcileTimer.value.id == old(nextTimerId)
    {
      var previousStreak := idleReconcileStreak;
      if enqueued == 0 {
        idleReconcileStreak := idleReconcileStreak + 1;
      } else {
        idleReconcileStreak := 0;
      }
      var cappedPrev := Min(previousStreak, BACKOFF_CAP);
      var cappedNow := Min(idleReconcileStreak, BACKOFF_CAP);
      MultiplierFollowsCap(previousStreak, idleReconcileStreak);
      if cappedPrev != cappedNow {
        RestartReconcileTimer();
      }
    }

    // ---- vault events -------------------------------------------------------------

    method ScheduleMdUpsert(path: Path)
      modifies `pendingMdEdits
      ensures pendingMdEdits == old(pendingMdEdits) + {path}
    {
      pendingMdEdits := pendingMdEdits + {path};
    }

    /** onCreate and onModify: a Markdown file waits for its metadata, any other is queued at once. */
    method OnCreateOrModify(path: Path, now: int)
      requires Valid()
      modifies `pendingMdEdits, `idleReconcileStreak, `reconcileTimer, `nextTimerId, queue`items, queue`saved
      ensures Valid() && View() == OnEdit(config, old(View()), path, now)
      ensures !config.tracked(path) || config.excluded(path) ==> View() == old(View())
      ensures config.tracked(path) && !config.excluded(path) && config.markdown(path) ==>
                pendingMdEdits == old(pendingMdEdits) + {path} && queue.items == old(queue.items)
      ensures config.tracked(path) && !config.excluded(path) && !config.markdown(path) ==>
                && pendingMdEdits == old(pendingMdEdits)
                && Supersedes(old(queue.items), queue.items, {Upsert(path)}, [Item(Upsert(path), now, 0)])
      ensures idleReconcileStreak == if config.Synced(path) then 0 else old(idleReconcileStreak)
    {
      if !config.tracked(path) {
        return;
      }
      if config.excluded(path) {
        return;
      }
      ResetIdleStreak();
      if config.markdown(path) {
        ScheduleMdUpsert(path);
        return;
      }
      queue.EnqueueUpsert(path, now);
    }

    method OnDelete(path: Path, now: int)
      requires Valid()
      modifies `idleReconcileStreak, `reconcileTimer, `nextTimerId, `tombstones, queue`items, queue`saved
      ensures Valid() && View() == SyncStates.OnDelete(config, old(View()), path, now)
      ensures pendingMdEdits == old(pendingMdEdits)
      ensures if !config.tracked(path) then queue.items == old(queue.items)
              else Supersedes(old(queue.items), queue.items, {Upsert(path), Delete(path)}, [Item(Delete(path), now, 0)])
      ensures tombstones == if config.tracked(path) then old(tombstones)[path := now] else old(tombstones)
      ensures idleReconcileStreak == if config.tracked(path) then 0 else old(idleReconcileStreak)
    {
      if !config.tracked(path) {
        return;
      }
      ResetIdleStreak();
      queue.EnqueueDelete(path, now);
      tombstones := tombstones[path := now];
    }

    method OnRename(newPath: Path, oldPath: Path, now: int)
      requires Valid()
      modifies `idleReconcileStreak, `reconcileTimer, `nextTimerId, `tombstones, queue`items, queue`saved
      ensures Valid() && View() == SyncStates.OnRename(config, old(View()), oldPath, newPath, now)
      ensures pendingMdEdits == old(pendingMdEdits)
      ensures !config.tracked(newPath) ==> queue.items == old(queue.items)
      ensures config.tracked(newPath) && config.excluded(newPath) ==>
                Supersedes(old(queue.items), queue.items, {Upsert(oldPath), Delete(oldPath)},
                  [Item(Delete(oldPath), now, 0)])
      ensures config.tracked(newPath) && !config.excluded(newPath) ==>
                Supersedes(old(queue.items), queue.items, {Upsert(oldPath), Upsert(newPath), Rename(oldPath, newPath)},
                  [Item(Rename(oldPath, newPath), now, 0), Item(Upsert(newPath), now, 0)])
      ensures tombstones == if config.tracked(newPath) && config.excluded(newPath)
          then old(tombstones)[oldPath := now] else old(tombstones)
      ensures idleReconcileStreak == if config.tracked(newPath) then 0 else old(idleReconcileStreak)
    {
      if !config.tracked(newPath) {
        return;
      }
      ResetIdleStreak();
      if config.excluded(newPath) {
        queue.EnqueueDelete(oldPath, now);
        tombstones := tombstones[oldPath := now];
        return;
      }
      queue.EnqueueRename(oldPath, newPath, now);
    }

    method OnMetadataChanged(path: Path, now: int)
      requires Valid()
      modifies `pendingMdEdits, queue`items, queue`saved
      ensures Valid() && View() == OnMetadata(config, old(View()), path, now)
      ensures !config.tracked(path) || config.excluded(path) || !config.markdown(path) ==> View() == old(View())
      ensures config.tracked(path) && !config.excluded(path) && config.markdown(path) ==>
                && pendingMdEdits == old(pendingMdEdits) - {path}
                && Supersedes(old(queue.items), queue.items, {Upsert(path)}, [Item(Upsert(path), now, 0)])
    {
      if !config.tracked(path) {
        return;
      }
      if config.excluded(path) {
        return;
      }
      if !config.markdown(path) {
        return;
      }
      pendingMdEdits := pendingMdEdits - {path};
      queue.EnqueueUpsert(path, now);
    }

    /** The deferred upsert of a Markdown edit. */
    method OnDebounceFires(path: Path, now: int)
      requires Valid()
      modifies `pendingMdEdits, queue`items, queue`saved
      ensures Valid() && View() == OnDebounce(old(View()), path, now)
      ensures pendingMdEdits == old(pendingMdEdits) - {path}
      ensures Supersedes(old(queue.items), queue.items, {Upsert(path)}, [Item(Upsert(path), now, 0)])
    {
      pendingMdEdits := pendingMdEdits - {path};
      queue.EnqueueUpsert(path, now);
    }

    // ---- reconcile ------------------------------------------------------------------

    /** First loop of the diff: local files that are not on the server, or not known to be equal. */
    method QueueOutdated(locals: seq<Path>, vault: map<Path, File>, manifest: map<Path, Entry>,
          now: int) returns (enqueued: nat)
      requires Valid() && forall p :: p in locals ==> p in vault
      modifies queue`items, queue`saved
      ensures Valid()
      ensures var upserts := Outdated(locals, vault, manifest);
              View() == OnDiff(old(View()), upserts, [], now) && enqueued == |upserts|
    {
      enqueued := 0;
      ghost var before := View();
      ghost var upserts: seq<Path> := [];
      var i := 0;
      while i < |locals|
        invariant Valid() && 0 <= i <= |locals| && upserts == Outdated(locals[..i], vault, manifest)
        invariant View() == OnDiff(before, upserts, [], now) && enqueued == |upserts|
      {
        OutdatedTake(locals, vault, manifest, i);
        if locals[i] in manifest && Matches(vault[locals[i]], manifest[locals[i]]) {
          i := i + 1;
          continue;
        }
        UpsertGrows(before, upserts, locals[i], now);
        queue.EnqueueUpsert(locals[i], now);
        upserts := upserts + [locals[i]];
        enqueued := enqueued + 1;
        i := i + 1;
      }
      assert locals[..|locals|] == locals;
    }

    /** Second loop: remote paths that are not local and not freshly deleted. */
    method QueueRemoteOnly(locals: seq<Path>, remotes: seq<Path>, now: int, ghost before: Pending,
          ghost upserts: seq<Path>) returns (enqueued: nat)
      requires Valid() && View() == OnDiff(before, upserts, [], now)
      modifies queue`items, queue`saved
      ensures Valid()
      ensures var deletes := RemoteOnly(remotes, locals, Buried(tombstones, now));
              View() == OnDiff(before, upserts, deletes, now) && enqueued == |deletes|
    {
      enqueued := 0;
      ghost var deletes: seq<Path> := [];
      var localPaths := set p | p in locals;
      var i := 0;
      while i < |remotes|
        invariant Valid() && 0 <= i <= |remotes| && deletes == RemoteOnly(remotes[..i], locals, Buried(tombstones, now))
        invariant View() == OnDiff(before, upserts, deletes, now) && enqueued == |deletes|
      {
        RemoteOnlyTake(remotes, locals, Buried(tombstones, now), i);
        if remotes[i] in localPaths {
          i := i + 1;
          continue;
        }
        if remotes[i] in tombstones && tombstones[remotes[i]] != 0 && now - tombstones[remotes[i]] < TOMBSTONE_TTL_MS {
          i := i + 1;
          continue;
        }
        DeleteGrows(before, upserts, deletes, remotes[i], now);
        queue.EnqueueDelete(remotes[i], now);
        deletes := deletes + [remotes[i]];
        enqueued := enqueued + 1;
        i := i + 1;
      }
      assert remotes[..|remotes|] == remotes;
    }

    /** Enqueues the differences between the local files and the manifest. `locals` are the vault's
        tracked, non-excluded files and `remotes` the manifest's keys, each in the order iterated. */
    method DiffAndQueue(locals: seq<Path>, vault: map<Path, File>, remotes: seq<Path>, manifest: map<Path,
          Entry>, now: int)
      returns (enqueued: nat)
      requires Valid() && forall p :: p in locals ==> p in vault
      modifies queue`items, queue`saved
      ensures Valid()
      ensures var upserts, deletes :=
                Outdated(locals, vault, manifest), RemoteOnly(remotes, locals, Buried(tombstones, now));
              View() == OnDiff(old(View()), upserts, deletes, now) && enqueued == |upserts| + |deletes|
      ensures forall p :: Last(queue.items, p, false)
                          == DiffDecides(locals, vault, remotes, manifest, tombstones, now, p,
                                         Last(old(queue.items), p, false))
    {
      forall p ensures Last(OnDiff(View(), Outdated(locals, vault, manifest),
                            RemoteOnly(remotes, locals, Buried(tombstones, now)), now).queue, p, false)
                       == DiffDecides(locals, vault, remotes, manifest, tombstones, now, p, Last(queue.items, p, false))
      {
        DiffIsDecided(View(), locals, vault, remotes, manifest, tombstones, now, p);
      }
      ghost var before := View();
      var upserted := QueueOutdated(locals, vault, manifest, now);
      var deleted := QueueRemoteOnly(locals, remotes, now, before, Outdated(locals, vault, manifest));
      enqueued := upserted + deleted;
    }

    /** The part of maybeReconcile after the manifest arrived. */
    method Reconcile(locals: seq<Path>, vault: map<Path, File>, remotes: seq<Path>, manifest: map<Path, Entry>,
          now: int)
      requires Valid() && forall p :: p in locals ==> p in vault
      modifies `idleReconcileStreak, `reconcileTimer, `nextTimerId, `tombstones, queue`items, queue`saved
      ensures Valid()
      ensures var upserts, deletes :=
                Outdated(locals, vault, manifest), RemoteOnly(remotes, locals, Buried(old(tombstones), now));
              && View() == OnDiff(old(View()), upserts, deletes, now)
              && idleReconcileStreak == if upserts == [] && deletes == [] then old(idleReconcileStreak) + 1 else 0
      ensures forall later :: now <= later ==> Buried(tombstones, later) == Buried(old(tombstones), later)
      ensures forall p :: p in tombstones <==> p in old(tombstones) && now - old(tombstones)[p] <= 86_400_000
      ensures forall p :: p in tombstones ==> tombstones[p] == old(tombstones)[p]
    {
      var enqueued := DiffAndQueue(locals, vault, remotes, manifest, now);
      tombstones := PruneTombstones(tombstones, now);
      UpdateIdleStreak(enqueued);
    }
  }

  /** The server's row is known to be of this file: same size, and a time stamp not more than a second newer. */
  predicate ListedEqual(f: File, e: Entry) {
    e.size == Some(f.size) && f.mtime - e.mtime <= 1000
  }

  /** The path was deleted here less than a day ago. */
  predicate JustDeleted(tombstones: map<Path, int>, p: Path, now: int) {
    p in tombstones && tombstones[p] != 0 && now - tombstones[p] < 86_400_000
  }

  /** What a diff makes of a path's last operation: a local file is upserted unless its row is known to be equal, a
      path only the server has is deleted unless it was just deleted here, any other path is left alone. */
  function DiffDecides(locals: seq<Path>, vault: map<Path, File>, remotes: seq<Path>, manifest: map<Path, Entry>,
        tombstones: map<Path, int>, now: int, p: Path, before: Option<Op>): Option<Op>
    requires forall q :: q in locals ==> q in vault
  {
    if p in locals then
      if p in manifest && ListedEqual(vault[p], manifest[p]) then before else Some(Upsert(p))
    else if p in remotes && !JustDeleted(tombstones, p, now) then Some(Delete(p))
    else before
  }

  lemma {:induction false} DiffIsDecided(pd: Pending, locals: seq<Path>, vault: map<Path, File>, remotes: seq<Path>,
        manifest: map<Path, Entry>, tombstones: map<Path, int>, now: int, p: Path)
    requires forall q :: q in locals ==> q in vault
    ensures var upserts, deletes :=
              Outdated(locals, vault, manifest), RemoteOnly(remotes, locals, Buried(tombstones, now));
            Last(OnDiff(pd, upserts, deletes, now).queue, p, false)
            == DiffDecides(locals, vault, remotes, manifest, tombstones, now, p, Last(pd.queue, p, false))
  {
    var upserts, deletes := Outdated(locals, vault, manifest), RemoteOnly(remotes, locals, Buried(tombstones, now));
    DiffAsQueue(pd, upserts, deletes, now);
    DiffQueueEffect(pd.queue, upserts, deletes, now, p);
  }

  lemma {:induction false} OutdatedTake(locals: seq<Path>, vault: map<Path, File>, manifest: map<Path, Entry>, i: nat)
    requires i < |locals| && forall p :: p in locals ==> p in vault
    ensures Outdated(locals[..i + 1], vault, manifest)
            == Outdated(locals[..i], vault, manifest) + if locals[i] in manifest
                && Matches(vault[locals[i]], manifest[locals[i]]) then [] else [locals[i]]
  {
    assert locals[..i + 1][..i] == locals[..i];
  }

  lemma {:induction false} RemoteOnlyTake(remotes: seq<Path>, locals: seq<Path>, buried: set<Path>, i: nat)
    requires i < |remotes|
    ensures RemoteOnly(remotes[..i + 1], locals, buried)
            == RemoteOnly(remotes[..i], locals, buried) + if remotes[i] in locals || remotes[i] in buried
                then [] else [remotes[i]]
  {
    assert remotes[..i + 1][..i] == remotes[..i];
  }

  lemma DiffAsQueue(pd: Pending, upserts: seq<Path>, deletes: seq<Path>, now: int)
    ensures OnDiff(pd, upserts, deletes, now).queue == DiffQueue(pd.queue, upserts, deletes, now)
  {
  }

  /** One more enqueue extends the diff by one path. */
  lemma UpsertGrows(pd: Pending, upserts: seq<Path>, p: Path, now: int)
    ensures var sofar := OnDiff(pd, upserts, [], now);
            OnDiff(pd, upserts + [p], [], now) == sofar.Put(EnqueueUpsert(sofar.queue, p, now))
  {
    DiffAsQueue(pd, upserts, [], now);
    assert (upserts + [p])[..|upserts|] == upserts;
  }

  lemma DeleteGrows(pd: Pending, upserts: seq<Path>, deletes: seq<Path>, p: Path, now: int)
    ensures var sofar := OnDiff(pd, upserts, deletes, now);
            OnDiff(pd, upserts, deletes + [p], now) == sofar.Put(EnqueueDelete(sofar.queue, p, now))
  {
    DiffAsQueue(pd, upserts, deletes, now);
    assert (deletes + [p])[..|deletes|] == deletes;
  }
}
