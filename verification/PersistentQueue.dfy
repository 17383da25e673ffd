/** The persistent upload queue as an object (obsidian/src/queue.ts). The clock is a parameter;
    `saved` is what the persist callback last wrote. */
module PersistentQueues {
  import opened Common
  import opened QueueItems
  import opened Draining

  class PersistentQueue {
    var items: seq<Item>
    var saved: seq<Item>
    var draining: bool
    var stopRequested: bool
    const batchSize: nat
    const maxAttempts: nat

    ghost predicate Valid()
      reads this
    {
      batchSize > 0 && (!draining ==> saved == items)
    }

    constructor (initial: seq<Item>, batchSize: nat, maxAttempts: nat)
      requires batchSize > 0
      ensures Valid() && items == saved == initial && !draining
      ensures this.batchSize == batchSize && this.maxAttempts == maxAttempts
    {
      items, saved := initial, initial;
      draining, stopRequested := false, false;
      this.batchSize, this.maxAttempts := batchSize, maxAttempts;
    }

    method Persist()
      modifies `saved
      ensures saved == items
    {
      saved := items;
    }

    method EnqueueUpsert(path: Path, now: int)
      requires Valid()
      modifies `items, `saved
      ensures Valid() && saved == items == QueueItems.EnqueueUpsert(old(items), path, now)
      ensures Supersedes(old(items), items, {Upsert(path)}, [Item(Upsert(path), now, 0)])
    {
      items := Without(items, {Upsert(path)});
      items := items + [Item(Upsert(path), now, 0)];
      Persist();
      UpsertCoalesces(old(items), path, now);
    }

    method EnqueueDelete(path: Path, now: int)
      requires Valid()
      modifies `items, `saved
      ensures Valid() && saved == items == QueueItems.EnqueueDelete(old(items), path, now)
      ensures Supersedes(old(items), items, {Upsert(path), Delete(path)}, [Item(Delete(path), now, 0)])
    {
      items := Without(items, {Upsert(path), Delete(path)});
      items := items + [Item(Delete(path), now, 0)];
      Persist();
      DeleteCoalesces(old(items), path, now);
    }

    method EnqueueRename(oldPath: Path, newPath: Path, now: int)
      requires Valid()
      modifies `items, `saved
      ensures Valid() && saved == items == QueueItems.EnqueueRename(old(items), oldPath, newPath, now)
      ensures Supersedes(old(items), items, {Upsert(oldPath), Upsert(newPath), Rename(oldPath, newPath)},
                [Item(Rename(oldPath, newPath), now, 0), Item(Upsert(newPath), now, 0)])
    {
      items := Without(items, {Upsert(oldPath), Upsert(newPath), Rename(oldPath, newPath)});
      items := items + [Item(Rename(oldPath, newPath), now, 0)];
      items := items + [Item(Upsert(newPath), now, 0)];
      Persist();
      assert items == QueueItems.EnqueueRename(old(items), oldPath, newPath, now);
      RenameCoalesces(old(items), oldPath, newPath, now);
    }

    method RequestStop()
      modifies `stopRequested
      ensures stopRequested
    {
      stopRequested := true;
    }

    method TakeBatch() returns (head: seq<Item>)
      requires Valid()
      modifies `items
      ensures head == Taken(old(items), batchSize)
      ensures items == old(items)[Min(batchSize, |old(items)|)..]
    {
      var k := Min(batchSize, |items|);
      head := items[..k];
      items := items[k..];
    }

    /** Works off one batch: what failed goes back to the head of the queue. */
    method Round(n: nat, worker: Worker) returns (part: Summary)
      requires Valid() && Decent(worker) && items != []
      modifies `items, `saved
      ensures saved == items == Leftover(old(items), worker(n, Taken(old(items), batchSize)), batchSize, maxAttempts)
      ensures part == BatchSummary(Taken(old(items), batchSize), worker(n, Taken(old(items), batchSize)), maxAttempts)
    {
      var batch := TakeBatch();
      var result := worker(n, batch);
      var retry := result.lists.retry + Unhandled(batch, result.lists);
      var survivors := Bump(retry, maxAttempts);
      part := Summary(1, |result.lists.acked|, |result.lists.dropped| + (|retry| - |survivors|), result.stop);
      items := survivors + items;
      Persist();
    }

    /** Hands batches to the worker until the queue is empty or a stop is signalled. `halts(n)`
        says that `RequestStop` was called while the n-th batch was under way. */
    method Drain(worker: Worker, halts: nat -> bool) returns (summary: Summary)
      requires Valid() && Decent(worker)
      modifies `items, `saved, `draining, `stopRequested
      ensures Valid() && draining == old(draining)
      ensures old(draining) ==> summary == NoSummary && items == old(items) && saved == old(saved)
      ensures !old(draining) ==>
                (items, summary) == DrainFrom(old(items), 0, worker, halts, batchSize, maxAttempts)
    {
      if draining {
        return NoSummary;
      }
      draining := true;
      stopRequested := false;
      summary := NoSummary;
      ghost var all := DrainFrom(items, 0, worker, halts, batchSize, maxAttempts);
      while |items| > 0 && !stopRequested
        invariant Valid() && draining && saved == items && !summary.stopped
        invariant stopRequested ==> all == (items, summary.(stopped := true))
        invariant !stopRequested ==> all == DrainOn(summary, items, summary.batches, worker, halts, batchSize,
            maxAttempts)
        decreases if stopRequested then 0 else 1, Weight(items, maxAttempts)
      {
        ghost var before, sofar := items, summary;
        var part := Round(summary.batches, worker);
        DrainRound(sofar, before, sofar.batches, worker, halts, batchSize, maxAttempts, worker(sofar.batches,
            Taken(before, batchSize)));
        if halts(summary.batches) {
          RequestStop();
        }
        summary := summary.Plus(part);
        if part.stopped {
          break;
        }
      }
      if stopRequested {
        summary := summary.(stopped := true);
      }
      draining := false;
    }
  }
}
