/** What one pass of the drain loop does with a batch, and the loop as a whole (obsidian/src/queue.ts). */
module Draining {
  import opened Common
  import opened QueueItems
  import opened Batches

  function Keys(items: seq<Item>): set<string> {
    set x | x in items :: ItemKey(x.op)
  }

  /** The batch's items whose key the worker did not put on any list. */
  function Unhandled(batch: seq<Item>, l: Lists): seq<Item> {
    var keys := Keys(l.acked) + Keys(l.dropped) + Keys(l.retry);
    Select(batch, op => ItemKey(op) !in keys)
  }

  function Retried(x: Item): Item {
    x.(attempt := x.attempt + 1)
  }

  /** The items after one more failed delivery; those with no attempt left fall away. */
  function Bump(items: seq<Item>, max: nat): (r: seq<Item>)
    ensures |r| <= |items|
  {
    if items == [] then []
    else
      var x := Retried(items[|items| - 1]);
      Bump(items[..|items| - 1], max) + if x.attempt <= max then [x] else []
  }

  function ToRetry(batch: seq<Item>, l: Lists): seq<Item> {
    l.retry + Unhandled(batch, l)
  }

  function PutBack(batch: seq<Item>, l: Lists, max: nat): seq<Item> {
    Bump(ToRetry(batch, l), max)
  }

  datatype Summary = Summary(batches: nat, acked: nat, dropped: nat, stopped: bool) {
    function Plus(that: Summary): Summary {
      Summary(batches + that.batches, acked + that.acked, dropped + that.dropped, stopped || that.stopped)
    }
  }

  const NoSummary := Summary(0, 0, 0, false)

  function BatchSummary(batch: seq<Item>, res: BatchResult, max: nat): Summary {
    Summary(1, |res.lists.acked|, |res.lists.dropped|
        + |ToRetry(batch, res.lists)| - |PutBack(batch, res.lists, max)|, res.stop)
  }

  /** The worker's answer to the n-th batch of a drain. */
  type Worker = (nat, seq<Item>) -> BatchResult

  /** The worker puts back only items of the batch, each at most twice. */
  ghost predicate Decent(worker: Worker) {
    forall n, batch :: multiset(worker(n, batch).lists.retry) <= multiset(batch) + multiset(batch)
  }

  function Taken(items: seq<Item>, size: nat): seq<Item> { items[..Min(size, |items|)] }

  /** The queue after one round: what failed goes in front of what was not taken. */
  function Leftover(items: seq<Item>, res: BatchResult, size: nat, max: nat): seq<Item> {
    PutBack(Taken(items, size), res.lists, max) + items[Min(size, |items|)..]
  }

  /** The loop from its n-th round on; `halts(n)` says that a stop was requested during round n. */
  ghost function DrainFrom(items: seq<Item>, n: nat, worker: Worker, halts: nat -> bool, size: nat,
        max: nat): (seq<Item>, Summary)
    requires Decent(worker) && size > 0
    decreases Weight(items, max), 0
  {
    if items == [] then (items, NoSummary)
    else
      var res := worker(n, Taken(items, size));
      var here := BatchSummary(Taken(items, size), res, max);
      if res.stop || halts(n) then (Leftover(items, res, size, max), here.(stopped := true))
      else
        DrainStepShrinks(items, res, size, max);
        DrainOn(here, Leftover(items, res, size, max), n + 1, worker, halts, size, max)
  }

  /** The rest of a drain, on top of the summary so far. */
  ghost function DrainOn(sofar: Summary, items: seq<Item>, n: nat, worker: Worker, halts: nat -> bool,
        size: nat, max: nat): (seq<Item>, Summary)
    requires Decent(worker) && size > 0
    decreases Weight(items, max), 1
  {
    var rest := DrainFrom(items, n, worker, halts, size, max);
    (rest.0, sofar.Plus(rest.1))
  }

  // ---- termination -----------------------------------------------------------

  function Pow3(n: nat): nat
    ensures Pow3(n) > 0
  { if n == 0 then 1 else 3 * Pow3(n - 1) }

  function ItemWeight(x: Item, max: nat): nat {
    if x.attempt > max then 1 else Pow3(max + 1 - x.attempt)
  }

  /** What the item weighs after one more failed delivery. */
  function RetriedWeight(x: Item, max: nat): nat {
    if x.attempt + 1 > max then 0 else ItemWeight(Retried(x), max)
  }

  /** The sum of 3 ^ (attempts left) over the items. */
  function Weight(items: seq<Item>, max: nat): nat {
    if items == [] then 0 else Weight(items[..|items| - 1], max) + ItemWeight(items[|items| - 1], max)
  }

  function TotalRetried(items: seq<Item>, max: nat): nat {
    if items == [] then 0 else TotalRetried(items[..|items| - 1], max) + RetriedWeight(items[|items| - 1], max)
  }

  lemma {:induction false} WeightConcat(a: seq<Item>, b: seq<Item>, max: nat)
    ensures Weight(a + b, max) == Weight(a, max) + Weight(b, max)
    ensures TotalRetried(a + b, max) == TotalRetried(a, max) + TotalRetried(b, max)
  {
    if b == [] {
      assert a + b == a;
    } else {
      assert (a + b)[..|a + b| - 1] == a + b[..|b| - 1];
      WeightConcat(a, b[..|b| - 1], max);
    }
  }

  lemma {:induction false} WeightSingle(x: Item, max: nat)
    ensures Weight([x], max) == ItemWeight(x, max) && TotalRetried([x], max) == RetriedWeight(x, max)
  {
    assert [x][..0] == [];
  }

  lemma {:induction false} BumpWeight(items: seq<Item>, max: nat)
    ensures Weight(Bump(items, max), max) == TotalRetried(items, max)
  {
    if items != [] {
      var init, x := items[..|items| - 1], Retried(items[|items| - 1]);
      BumpWeight(init, max);
      if x.attempt <= max {
        WeightConcat(Bump(init, max), [x], max);
        WeightSingle(x, max);
      } else {
        assert Bump(items, max) == Bump(init, max);
      }
    }
  }

  lemma {:induction false} RetriedIsLighter(items: seq<Item>, max: nat)
    ensures 2 * TotalRetried(items, max) <= Weight(items, max)
    ensures items != [] ==> 2 * TotalRetried(items, max) < Weight(items, max)
  {
    if items != [] {
      RetriedIsLighter(items[..|items| - 1], max);
    }
  }

  lemma {:induction false} RetriedWeightMonotone(a: seq<Item>, b: seq<Item>, max: nat)
    requires multiset(a) <= multiset(b)
    ensures TotalRetried(a, max) <= TotalRetried(b, max)
    decreases |a|
  {
    if a != [] {
      var init, x := a[..|a| - 1], a[|a| - 1];
      assert a == init + [x];
      assert x in multiset(b);
      var i :| 0 <= i < |b| && b[i] == x;
      var c := b[..i] + b[i + 1..];
      assert b == b[..i] + [x] + b[i + 1..];
      assert multiset(a) == multiset(init) + multiset{x};
      assert multiset(b) == multiset(c) + multiset{x};
      forall y ensures multiset(init)[y] <= multiset(c)[y] {
        assert multiset(a)[y] <= multiset(b)[y];
      }
      RetriedWeightMonotone(init, c, max);
      WeightConcat(b[..i] + [x], b[i + 1..], max);
      WeightConcat(b[..i], [x], max);
      WeightConcat(b[..i], b[i + 1..], max);
      WeightSingle(x, max);
    }
  }

  /** Retried and unhandled items together are still the batch's, each at most twice. */
  lemma ToRetryCounts(batch: seq<Item>, l: Lists)
    requires multiset(l.retry) <= multiset(batch) + multiset(batch)
    ensures multiset(ToRetry(batch, l)) <= multiset(batch + batch)
  {
    var keys := Keys(l.acked) + Keys(l.dropped) + Keys(l.retry);
    SelectAtMost(batch, op => ItemKey(op) !in keys);
    SelectItems(batch, op => ItemKey(op) !in keys);
    forall x ensures multiset(ToRetry(batch, l))[x] <= multiset(batch + batch)[x] {
      if x in l.retry {
        assert x !in Unhandled(batch, l);
      } else {
        assert multiset(l.retry)[x] == 0;
      }
    }
  }

  lemma {:induction false} PutBackIsLighter(batch: seq<Item>, l: Lists, max: nat)
    requires batch != []
    requires multiset(l.retry) <= multiset(batch) + multiset(batch)
    ensures Weight(PutBack(batch, l, max), max) < Weight(batch, max)
  {
    var retry := ToRetry(batch, l);
    ToRetryCounts(batch, l);
    RetriedWeightMonotone(retry, batch + batch, max);
    WeightConcat(batch, batch, max);
    RetriedIsLighter(batch, max);
    BumpWeight(retry, max);
  }

  /** Every round makes the queue strictly lighter, even when items come back twice. */
  lemma {:induction false} DrainStepShrinks(items: seq<Item>, res: BatchResult, size: nat, max: nat)
    requires items != [] && size > 0
    requires multiset(res.lists.retry) <= multiset(Taken(items, size)) + multiset(Taken(items, size))
    ensures Weight(Leftover(items, res, size, max), max) < Weight(items, max)
  {
    var k := Min(size, |items|);
    PutBackIsLighter(items[..k], res.lists, max);
    WeightConcat(PutBack(items[..k], res.lists, max), items[k..], max);
    WeightConcat(items[..k], items[k..], max);
    assert items == items[..k] + items[k..];
  }

  /** The engine answered this batch: some replies explain the result. */
  ghost predicate EngineResult(batch: seq<Item>, res: BatchResult) {
    exists renameReply, deleteReply, outcomes, syncReply ::
      |outcomes| == |OfKind(batch, Upserts)| && res
          == BatchVerdict(batch, renameReply, deleteReply, outcomes, syncReply)
  }

  /** Whatever the server answers, the engine is a decent worker, so its drains end. */
  lemma EngineIsDecent(worker: Worker)
    requires forall n, batch :: EngineResult(batch, worker(n, batch))
    ensures Decent(worker)
  {
    forall n, batch ensures multiset(worker(n, batch).lists.retry) <= multiset(batch) + multiset(batch) {
      assert EngineResult(batch, worker(n, batch));
      var renameReply, deleteReply, outcomes, syncReply :| |outcomes| == |OfKind(batch, Upserts)|
        && worker(n, batch) == BatchVerdict(batch, renameReply, deleteReply, outcomes, syncReply);
      RetriesAtMostTwice(batch, renameReply, deleteReply, outcomes, syncReply);
    }
  }

  /** Each round makes the queue lighter by at least one, so a drain takes at most as many batches as the queue
      weighs. */
  lemma {:induction false} DrainIsShort(items: seq<Item>, n: nat, worker: Worker, halts: nat -> bool,
        size: nat, max: nat)
    requires Decent(worker) && size > 0
    ensures DrainFrom(items, n, worker, halts, size, max).1.batches <= Weight(items, max)
    decreases Weight(items, max)
  {
    if items != [] {
      var res := worker(n, Taken(items, size));
      DrainStepShrinks(items, res, size, max);
      if !res.stop && !halts(n) {
        DrainIsShort(Leftover(items, res, size, max), n + 1, worker, halts, size, max);
      }
    }
  }

  lemma PlusAssociates(a: Summary, b: Summary, c: Summary)
    ensures a.Plus(b).Plus(c) == a.Plus(b.Plus(c))
    ensures a.Plus(b.(stopped := true)) == a.Plus(b).(stopped := true)
  {}

  lemma {:induction false} DrainUnfolds(items: seq<Item>, n: nat, worker: Worker, halts: nat -> bool, size: nat,
        max: nat, res: BatchResult)
    requires Decent(worker) && size > 0 && items != []
    requires res == worker(n, Taken(items, size))
    ensures var part := BatchSummary(Taken(items, size), res, max);
            DrainFrom(items, n, worker, halts, size, max)
            == if res.stop || halts(n) then (Leftover(items, res, size, max), part.(stopped := true))
               else DrainOn(part, Leftover(items, res, size, max), n + 1, worker, halts, size, max)
  {}

  /** One round of the loop. */
  lemma DrainRound(sofar: Summary, items: seq<Item>, n: nat, worker: Worker, halts: nat -> bool, size: nat,
        max: nat, res: BatchResult)
    requires Decent(worker) && size > 0 && items != []
    requires res == worker(n, Taken(items, size))
    ensures var next := Leftover(items, res, size, max);
            var here := sofar.Plus(BatchSummary(Taken(items, size), res, max));
            && Weight(next, max) < Weight(items, max)
            && DrainOn(sofar, items, n, worker, halts, size, max)
               == if res.stop || halts(n) then (next, here.(stopped := true))
                  else DrainOn(here, next, n + 1, worker, halts, size, max)
  {
    DrainStepShrinks(items, res, size, max);
    DrainUnfolds(items, n, worker, halts, size, max, res);
    var next, part := Leftover(items, res, size, max), BatchSummary(Taken(items, size), res, max);
    if res.stop || halts(n) {
      PlusAssociates(sofar, part, NoSummary);
    } else {
      PlusAssociates(sofar, part, DrainFrom(next, n + 1, worker, halts, size, max).1);
    }
  }

  // ---- nothing is lost, nothing is invented ------------------------------------

  lemma {:induction false} BumpItems(items: seq<Item>, max: nat)
    ensures forall y :: y in Bump(items, max) ==> 0 < y.attempt <= max && y.(attempt := y.attempt - 1) in items
    ensures forall x :: x in items && x.attempt < max ==> Retried(x) in Bump(items, max)
  {
    if items != [] {
      var init, x := items[..|items| - 1], items[|items| - 1];
      BumpItems(init, max);
      assert forall y :: y in items <==> y in init || y == x;
      assert forall y :: y in Bump(items, max) <==> y in Bump(init, max) || (y == Retried(x) && x.attempt < max);
      assert Retried(x).(attempt := x.attempt) == x;
    }
  }

  lemma {:induction false} BumpConcat(a: seq<Item>, b: seq<Item>, max: nat)
    ensures Bump(a + b, max) == Bump(a, max) + Bump(b, max)
  {
    if b == [] {
      assert a + b == a;
    } else {
      assert (a + b)[..|a + b| - 1] == a + b[..|b| - 1];
      BumpConcat(a, b[..|b| - 1], max);
    }
  }

  /** After a batch, every item's key was acked, was dropped by the worker, is back in the queue
      with one attempt more, or is out of attempts. */
  lemma NoKeyIsLost(batch: seq<Item>, l: Lists, max: nat, b: Item)
    requires b in batch
    ensures || ItemKey(b.op) in Keys(l.acked)
            || ItemKey(b.op) in Keys(l.dropped)
            || exists r :: r in ToRetry(batch, l) && ItemKey(r.op) == ItemKey(b.op)
                           && (r.attempt >= max || Retried(r) in PutBack(batch, l, max))
  {
    BumpItems(ToRetry(batch, l), max);
    var keys := Keys(l.acked) + Keys(l.dropped) + Keys(l.retry);
    SelectItems(batch, op => ItemKey(op) !in keys);
    if ItemKey(b.op) in Keys(l.retry) {
      var r :| r in l.retry && ItemKey(r.op) == ItemKey(b.op);
      assert r in ToRetry(batch, l);
    } else if ItemKey(b.op) !in keys {
      assert b in ToRetry(batch, l);
    }
  }

  /** With the engine's own verdicts the account holds item by item, whatever the paths contain. */
  lemma NoItemIsLost(batch: seq<Item>, renameReply: Reply, deleteReply: Reply, outcomes: seq<Read>,
        syncReply: Reply, max: nat, b: Item)
    requires |outcomes| == |OfKind(batch, Upserts)| && b in batch
    ensures var l := BatchVerdict(batch, renameReply, deleteReply, outcomes, syncReply).lists;
            b in l.acked || b in l.dropped || b.attempt >= max || Retried(b) in PutBack(batch, l, max)
  {
    var res := BatchVerdict(batch, renameReply, deleteReply, outcomes, syncReply);
    EveryItemIsClassified(batch, renameReply, deleteReply, outcomes, syncReply);
    BumpItems(ToRetry(batch, res.lists), max);
    if !InLists(res.lists, b) {
      UnclassifiedIsUnhandled(batch, renameReply, deleteReply, outcomes, syncReply, b);
      assert b in ToRetry(batch, res.lists);
    }
  }

  lemma UnclassifiedIsUnhandled(batch: seq<Item>, renameReply: Reply, deleteReply: Reply, outcomes: seq<Read>,
        syncReply: Reply, b: Item)
    requires |outcomes| == |OfKind(batch, Upserts)| && b in batch
    requires !InLists(BatchVerdict(batch, renameReply, deleteReply, outcomes, syncReply).lists, b)
    ensures b in Unhandled(batch, BatchVerdict(batch, renameReply, deleteReply, outcomes, syncReply).lists)
  {
    var l := BatchVerdict(batch, renameReply, deleteReply, outcomes, syncReply).lists;
    var ks := VerdictKinds(batch, renameReply, deleteReply, outcomes, syncReply);
    OtherKindIsUnhandled(batch, l, ks, b);
  }

  lemma OtherKindIsUnhandled(batch: seq<Item>, l: Lists, ks: set<Kind>, b: Item)
    requires Classifies(batch, l, ks) && Renames in ks && b in batch && !InLists(l, b)
    ensures b in Unhandled(batch, l)
  {
    var keys := Keys(l.acked) + Keys(l.dropped) + Keys(l.retry);
    if ItemKey(b.op) in keys {
      var x :| InLists(l, x) && ItemKey(x.op) == ItemKey(b.op);
      PlainKeyIsUnique(b.op, x.op);
    }
    SelectItems(batch, op => ItemKey(op) !in keys);
  }

  /** `y` is an item of `taken` after further failed deliveries, with attempts not exhausted. */
  ghost predicate Redelivered(y: Item, taken: seq<Item>, max: nat) {
    y.attempt <= max && exists x :: x in taken && x.attempt < y.attempt && x == y.(attempt := x.attempt)
  }

  lemma PutBackIsRedelivered(batch: seq<Item>, l: Lists, max: nat)
    requires multiset(l.retry) <= multiset(batch) + multiset(batch)
    ensures forall y :: y in PutBack(batch, l, max) ==> Redelivered(y, batch, max)
  {
    PutBackItems(batch, l, max);
    forall y | y in PutBack(batch, l, max) ensures Redelivered(y, batch, max) {
      var x := y.(attempt := y.attempt - 1);
      assert x in batch && x == y.(attempt := x.attempt);
    }
  }

  lemma RedeliveredWeaken(y: Item, taken: seq<Item>, more: seq<Item>, max: nat)
    requires Redelivered(y, taken, max) && taken <= more
    ensures Redelivered(y, more, max)
  {
    var x :| x in taken && x.attempt < y.attempt && x == y.(attempt := x.attempt);
    assert x in more;
  }

  /** Redelivering an item that was itself put back in front of `rest` redelivers one of the taken items. */
  lemma RedeliveredTwice(y: Item, back: seq<Item>, rest: seq<Item>, batch: seq<Item>, max: nat)
    requires Redelivered(y, back + rest, max)
    requires forall z :: z in back ==> Redelivered(z, batch, max)
    ensures Redelivered(y, batch + rest, max)
  {
    var z :| z in back + rest && z.attempt < y.attempt && z == y.(attempt := z.attempt);
    if z in back {
      var x :| x in batch && x.attempt < z.attempt && x == z.(attempt := x.attempt);
      assert x in batch + rest && x == y.(attempt := x.attempt);
    } else {
      assert z in batch + rest;
    }
  }

  /** What is left after a drain is a list of redelivered items, each an item of the taken part
      with more attempts but not more than allowed, followed by the untouched part in its order. */
  lemma {:induction false} DrainKeepsOrder(items: seq<Item>, n: nat, worker: Worker, halts: nat -> bool,
        size: nat, max: nat)
    returns (front: seq<Item>, m: nat)
    requires Decent(worker) && size > 0
    ensures m <= |items| && DrainFrom(items, n, worker, halts, size, max).0 == front + items[m..]
    ensures forall y :: y in front ==> Redelivered(y, items[..m], max)
    decreases Weight(items, max)
  {
    if items == [] {
      front, m := [], 0;
    } else {
      var k := Min(size, |items|);
      var res := worker(n, items[..k]);
      var back := PutBack(items[..k], res.lists, max);
      PutBackIsRedelivered(items[..k], res.lists, max);
      if res.stop || halts(n) {
        front, m := back, k;
      } else {
        DrainStepShrinks(items, res, size, max);
        assert Leftover(items, res, size, max) == back + items[k..];
        var front', m' := DrainKeepsOrder(back + items[k..], n + 1, worker, halts, size, max);
        front, m := DrainSplit(items, k, back, front', m', max);
      }
    }
  }

  lemma DrainSplit(items: seq<Item>, k: nat, back: seq<Item>, front': seq<Item>, m': nat, max: nat)
    returns (front: seq<Item>, m: nat)
    requires k <= |items| && m' <= |back + items[k..]|
    requires forall y :: y in back ==> Redelivered(y, items[..k], max)
    requires forall y :: y in front' ==> Redelivered(y, (back + items[k..])[..m'], max)
    ensures m <= |items| && front + items[m..] == front' + (back + items[k..])[m'..]
    ensures forall y :: y in front ==> Redelivered(y, items[..m], max)
  {
    if m' <= |back| {
      front, m := front' + back[m'..], k;
      assert (back + items[k..])[m'..] == back[m'..] + items[k..];
      forall y | y in front' ensures Redelivered(y, items[..k], max) {
        assert (back + items[k..])[..m'] == back[..m'] <= back == back + [];
        RedeliveredWeaken(y, back[..m'], back + [], max);
        RedeliveredTwice(y, back, [], items[..k], max);
        assert items[..k] + [] == items[..k];
      }
    } else {
      front, m := front', k + m' - |back|;
      assert (back + items[k..])[m'..] == items[m..];
      assert (back + items[k..])[..m'] == back + items[k..m];
      assert items[..k] + items[k..m] == items[..m];
      forall y | y in front' ensures Redelivered(y, items[..m], max) {
        RedeliveredTwice(y, back, items[k..m], items[..k], max);
      }
    }
  }

  lemma PutBackItems(batch: seq<Item>, l: Lists, max: nat)
    requires multiset(l.retry) <= multiset(batch) + multiset(batch)
    ensures forall y :: y in PutBack(batch, l, max) ==> 0 < y.attempt <= max && y.(attempt := y.attempt - 1) in batch
  {
    ToRetryCounts(batch, l);
    BumpItems(ToRetry(batch, l), max);
    forall x | x in ToRetry(batch, l) ensures x in batch {
      assert x in multiset(ToRetry(batch, l));
      assert x in multiset(batch + batch);
    }
  }

  /** The batches a drain hands to the worker, in order. */
  ghost function Deliveries(items: seq<Item>, n: nat, worker: Worker, halts: nat -> bool, size: nat, max: nat)
    : seq<seq<Item>>
    requires Decent(worker) && size > 0
    decreases Weight(items, max)
  {
    if items == [] then []
    else
      var res := worker(n, Taken(items, size));
      if res.stop || halts(n) then [Taken(items, size)]
      else
        DrainStepShrinks(items, res, size, max);
        [Taken(items, size)] + Deliveries(Leftover(items, res, size, max), n + 1, worker, halts, size, max)
  }

  /** The item was in the queue from the start, or is one delivered before with one attempt more. */
  ghost predicate Explained(items: seq<Item>, batches: seq<seq<Item>>, i: nat, y: Item)
    requires i < |batches|
  {
    y in items || exists h, z :: 0 <= h < i && z in batches[h] && y == Retried(z)
  }

  ghost predicate AttemptsWithin(items: seq<Item>, max: nat) {
    forall x :: x in items ==> x.attempt <= max
  }

  lemma LeftoverItems(items: seq<Item>, res: BatchResult, size: nat, max: nat)
    requires size > 0 && AttemptsWithin(items, max)
    requires multiset(res.lists.retry) <= multiset(Taken(items, size)) + multiset(Taken(items, size))
    ensures AttemptsWithin(Leftover(items, res, size, max), max)
    ensures forall y :: y in Leftover(items, res, size, max) ==>
              y in items || exists z :: z in Taken(items, size) && y == Retried(z)
  {
    PutBackItems(Taken(items, size), res.lists, max);
    forall y | y in PutBack(Taken(items, size), res.lists, max)
      ensures exists z :: z in Taken(items, size) && y == Retried(z)
    {
      var z := y.(attempt := y.attempt - 1);
      assert z in Taken(items, size) && y == Retried(z);
    }
  }

  /** Nothing is delivered beyond its attempts, and everything delivered is explained. */
  lemma {:induction false} DeliveriesAreExplained(items: seq<Item>, n: nat, worker: Worker, halts: nat -> bool,
        size: nat, max: nat, i: nat, y: Item)
    requires Decent(worker) && size > 0 && AttemptsWithin(items, max)
    requires var batches := Deliveries(items, n, worker, halts, size, max);
             i < |batches| && y in batches[i]
    ensures y.attempt <= max && Explained(items, Deliveries(items, n, worker, halts, size, max), i, y)
    decreases Weight(items, max)
  {
    var res := worker(n, Taken(items, size));
    if i > 0 {
      var next := Leftover(items, res, size, max);
      DrainStepShrinks(items, res, size, max);
      LeftoverItems(items, res, size, max);
      var more := Deliveries(next, n + 1, worker, halts, size, max);
      assert Deliveries(items, n, worker, halts, size, max) == [Taken(items, size)] + more;
      DeliveriesAreExplained(next, n + 1, worker, halts, size, max, i - 1, y);
      ExplainedBefore(items, next, Taken(items, size), more, i - 1, y);
    }
  }

  lemma ExplainedBefore(items: seq<Item>, next: seq<Item>, first: seq<Item>, more: seq<seq<Item>>, i: nat, y: Item)
    requires i < |more| && Explained(next, more, i, y)
    requires forall x :: x in next ==> x in items || exists z :: z in first && x == Retried(z)
    ensures Explained(items, [first] + more, i + 1, y)
  {
    var batches := [first] + more;
    if y in next {
      if y !in items {
        var z :| z in first && y == Retried(z);
        assert z in batches[0];
      }
    } else {
      var h, z :| 0 <= h < i && z in more[h] && y == Retried(z);
      assert z in batches[h + 1];
    }
  }

  lemma {:induction false} ChainClimbs(chain: seq<Item>)
    requires chain != [] && forall i :: 0 < i < |chain| ==> chain[i] == Retried(chain[i - 1])
    ensures chain[|chain| - 1].attempt == chain[0].attempt + |chain| - 1
  {
    if |chain| > 1 {
      var init := chain[..|chain| - 1];
      forall i | 0 < i < |init| ensures init[i] == Retried(init[i - 1]) {
        assert chain[i] == Retried(chain[i - 1]);
      }
      ChainClimbs(init);
    }
  }

  /** Along a chain of retries of one item, each a delivery of the drain, there are at most
      maxAttempts + 1 deliveries, less the attempts it started with. */
  lemma {:induction false} RetryChainIsShort(items: seq<Item>, n: nat, worker: Worker, halts: nat -> bool, size: nat,
        max: nat, chain: seq<Item>, rounds: seq<nat>)
    requires Decent(worker) && size > 0 && AttemptsWithin(items, max)
    requires chain != [] && |rounds| == |chain|
    requires forall i :: 0 < i < |chain| ==> chain[i] == Retried(chain[i - 1])
    requires forall i :: 0 <= i < |chain| ==>
               rounds[i] < |Deliveries(items, n, worker, halts, size, max)|
               && chain[i] in Deliveries(items, n, worker, halts, size, max)[rounds[i]]
    ensures |chain| <= max + 1 - chain[0].attempt
  {
    var last := |chain| - 1;
    DeliveriesAreExplained(items, n, worker, halts, size, max, rounds[last], chain[last]);
    ChainClimbs(chain);
  }

  // ---- conservation ------------------------------------------------------------

  /** The worker's lists split every batch. */
  ghost predicate Partitions(worker: Worker) {
    forall n, batch ::
      var l := worker(n, batch).lists;
      multiset(l.acked) + multiset(l.retry) + multiset(l.dropped) == multiset(batch)
  }

  lemma {:induction false} SelectNone(items: seq<Item>, keep: Op -> bool)
    requires forall x :: x in items ==> !keep(x.op)
    ensures Select(items, keep) == []
  {
    if items != [] {
      assert items[|items| - 1] in items;
      SelectNone(items[..|items| - 1], keep);
    }
  }

  lemma {:induction false} SelectAll(items: seq<Item>, keep: Op -> bool)
    requires forall x :: x in items ==> keep(x.op)
    ensures Select(items, keep) == items
  {
    if items != [] {
      assert items[|items| - 1] in items;
      SelectAll(items[..|items| - 1], keep);
    }
  }

  lemma NoneFailed(items: seq<Item>, failed: set<Op>)
    requires failed == {}
    ensures Only(items, failed) == [] && Without(items, failed) == items
  {
    SelectNone(items, op => op in failed);
    SelectAll(items, op => op !in failed);
  }

  lemma ClassifiedLeavesNothing(batch: seq<Item>, l: Lists)
    requires forall x :: x in batch ==> x in l.acked || x in l.retry || x in l.dropped
    ensures Unhandled(batch, l) == []
  {
    var keys := Keys(l.acked) + Keys(l.dropped) + Keys(l.retry);
    SelectNone(batch, op => ItemKey(op) !in keys);
  }

  lemma PartitionLeavesNothing(batch: seq<Item>, l: Lists)
    requires multiset(l.acked) + multiset(l.retry) + multiset(l.dropped) == multiset(batch)
    ensures Unhandled(batch, l) == []
    ensures |batch| == |l.acked| + |l.retry| + |l.dropped|
  {
    forall x | x in batch ensures x in l.acked || x in l.retry || x in l.dropped {
      assert x in multiset(batch);
    }
    ClassifiedLeavesNothing(batch, l);
    assert |multiset(batch)| == |multiset(l.acked)| + |multiset(l.retry)| + |multiset(l.dropped)|;
  }

  /** Items before = acked + dropped + items after, over the whole loop. */
  lemma {:induction false} DrainConserves(items: seq<Item>, n: nat, worker: Worker, halts: nat -> bool,
        size: nat, max: nat)
    requires Decent(worker) && Partitions(worker) && size > 0
    ensures var (after, s) := DrainFrom(items, n, worker, halts, size, max);
            |items| == s.acked + s.dropped + |after|
    decreases Weight(items, max)
  {
    if items != [] {
      var res := worker(n, Taken(items, size));
      PartitionLeavesNothing(Taken(items, size), res.lists);
      DrainStepShrinks(items, res, size, max);
      if !res.stop && !halts(n) {
        DrainConserves(Leftover(items, res, size, max), n + 1, worker, halts, size, max);
      }
    }
  }

  // ---- what the summary counts ---------------------------------------------------

  /** Items acknowledged over the batches delivered from the n-th on. */
  function AckedIn(batches: seq<seq<Item>>, n: nat, worker: Worker): nat {
    if batches == [] then 0 else |worker(n, batches[0]).lists.acked| + AckedIn(batches[1..], n + 1, worker)
  }

  /** Items refused for good. */
  function RefusedIn(batches: seq<seq<Item>>, n: nat, worker: Worker): nat {
    if batches == [] then 0 else |worker(n, batches[0]).lists.dropped| + RefusedIn(batches[1..], n + 1, worker)
  }

  /** How many items have no attempt left. */
  function Spent(items: seq<Item>, max: nat): nat {
    if items == [] then 0 else Spent(items[1..], max) + if items[0].attempt >= max then 1 else 0
  }

  /** Items put back, or not classified, on their last attempt. */
  function SpentIn(batches: seq<seq<Item>>, n: nat, worker: Worker, max: nat): nat {
    if batches == [] then 0
    else
      var l := worker(n, batches[0]).lists;
      Spent(l.retry, max) + Spent(Unhandled(batches[0], l), max) + SpentIn(batches[1..], n + 1, worker, max)
  }

  lemma {:induction false} SpentConcat(a: seq<Item>, b: seq<Item>, max: nat)
    ensures Spent(a + b, max) == Spent(a, max) + Spent(b, max)
  {
    if a == [] {
      assert a + b == b;
    } else {
      assert (a + b)[1..] == a[1..] + b;
      SpentConcat(a[1..], b, max);
    }
  }

  lemma {:induction false} BumpLosesSpent(items: seq<Item>, max: nat)
    ensures |items| == |Bump(items, max)| + Spent(items, max)
  {
    if items != [] {
      var init, x := items[..|items| - 1], items[|items| - 1];
      assert items == init + [x];
      SpentConcat(init, [x], max);
      BumpLosesSpent(init, max);
    }
  }

  lemma {:induction false} LaterBatches(batch: seq<Item>, more: seq<seq<Item>>, n: nat, worker: Worker, max: nat)
    ensures var l, all := worker(n, batch).lists, [batch] + more;
            && AckedIn(all, n, worker) == |l.acked| + AckedIn(more, n + 1, worker)
            && RefusedIn(all, n, worker) == |l.dropped| + RefusedIn(more, n + 1, worker)
            && SpentIn(all, n, worker, max)
               == Spent(l.retry, max) + Spent(Unhandled(batch, l), max) + SpentIn(more, n + 1, worker, max)
  {
    assert ([batch] + more)[1..] == more;
  }

  lemma {:induction false} RoundCounts(batch: seq<Item>, res: BatchResult, max: nat)
    ensures var part := BatchSummary(batch, res, max);
            && part.batches == 1 && part.acked == |res.lists.acked|
            && part.dropped
               == |res.lists.dropped| + Spent(res.lists.retry, max) + Spent(Unhandled(batch, res.lists), max)
  {
    SpentConcat(res.lists.retry, Unhandled(batch, res.lists), max);
    BumpLosesSpent(ToRetry(batch, res.lists), max);
  }

  lemma {:induction false} DrainCountsItems(items: seq<Item>, n: nat, worker: Worker, halts: nat -> bool, size: nat,
        max: nat)
    requires Decent(worker) && size > 0
    ensures var batches, summary := Deliveries(items, n, worker, halts, size, max),
                DrainFrom(items, n, worker, halts, size, max).1;
            && summary.batches == |batches|
            && summary.acked == AckedIn(batches, n, worker)
            && summary.dropped == RefusedIn(batches, n, worker) + SpentIn(batches, n, worker, max)
    decreases Weight(items, max)
  {
    if items != [] {
      var batch := Taken(items, size);
      var res := worker(n, batch);
      RoundCounts(batch, res, max);
      DrainUnfolds(items, n, worker, halts, size, max, res);
      if res.stop || halts(n) {
        LaterBatches(batch, [], n, worker, max);
      } else {
        var next := Leftover(items, res, size, max);
        DrainStepShrinks(items, res, size, max);
        DrainCountsItems(next, n + 1, worker, halts, size, max);
        LaterBatches(batch, Deliveries(next, n + 1, worker, halts, size, max), n, worker, max);
      }
    }
  }

  /** The last of the batches delivered from the n-th on stopped or was interrupted. */
  predicate LastStops(batches: seq<seq<Item>>, n: nat, worker: Worker, halts: nat -> bool) {
    batches != [] && (worker(n + |batches| - 1, batches[|batches| - 1]).stop || halts(n + |batches| - 1))
  }

  lemma LastStopsLater(batch: seq<Item>, more: seq<seq<Item>>, n: nat, worker: Worker, halts: nat -> bool)
    ensures LastStops([batch] + more, n, worker, halts)
            == if more == [] then worker(n, batch).stop || halts(n) else LastStops(more, n + 1, worker, halts)
  {
    if more != [] {
      assert ([batch] + more)[|more|] == more[|more| - 1];
    }
  }

  lemma {:induction false} DrainStopsIff(items: seq<Item>, n: nat, worker: Worker, halts: nat -> bool, size: nat,
        max: nat)
    requires Decent(worker) && size > 0
    ensures DrainFrom(items, n, worker, halts, size, max).1.stopped
            <==> LastStops(Deliveries(items, n, worker, halts, size, max), n, worker, halts)
    decreases Weight(items, max)
  {
    if items != [] {
      var batch := Taken(items, size);
      var res := worker(n, batch);
      DrainUnfolds(items, n, worker, halts, size, max, res);
      if res.stop || halts(n) {
        LastStopsLater(batch, [], n, worker, halts);
      } else {
        var next := Leftover(items, res, size, max);
        DrainStepShrinks(items, res, size, max);
        DrainStopsIff(next, n + 1, worker, halts, size, max);
        LastStopsLater(batch, Deliveries(next, n + 1, worker, halts, size, max), n, worker, halts);
      }
    }
  }

  /** The summary of a drain, from what was delivered: the batches, the items acknowledged in them, the items refused
      for good or out of attempts, and whether the last one stopped or was interrupted. */
  lemma {:induction false} DrainCounts(items: seq<Item>, n: nat, worker: Worker, halts: nat -> bool, size: nat,
        max: nat)
    requires Decent(worker) && size > 0
    ensures var batches, summary := Deliveries(items, n, worker, halts, size, max),
                DrainFrom(items, n, worker, halts, size, max).1;
            && summary.batches == |batches|
            && summary.acked == AckedIn(batches, n, worker)
            && summary.dropped == RefusedIn(batches, n, worker) + SpentIn(batches, n, worker, max)
            && (summary.stopped <==> LastStops(batches, n, worker, halts))
  {
    DrainCountsItems(items, n, worker, halts, size, max);
    DrainStopsIff(items, n, worker, halts, size, max);
  }

  /** A drain ends with the first batch in which a request meets an expired token or a lost connection; everything that
      was not acknowledged or refused before and has an attempt left is back in the queue. */
  lemma {:induction false} EndingErrorEndsDrain(items: seq<Item>, n: nat, worker: Worker, halts: nat -> bool,
        size: nat, max: nat, renameReply: Reply, deleteReply: Reply, outcomes: seq<Read>, syncReply: Reply, x: Item)
    requires Decent(worker) && size > 0 && x in Taken(items, size)
    requires |outcomes| == |OfKind(Taken(items, size), Upserts)|
    requires worker(n, Taken(items, size))
             == BatchVerdict(Taken(items, size), renameReply, deleteReply, outcomes, syncReply)
    requires || (EndsDrain(renameReply) && exists y :: y in Taken(items, size) && y.op.Rename?)
             || (EndsDrain(deleteReply) && exists y :: y in Taken(items, size) && y.op.Delete?)
             || (EndsDrain(syncReply) && Built in outcomes)
    ensures Deliveries(items, n, worker, halts, size, max) == [Taken(items, size)]
    ensures var (after, summary) := DrainFrom(items, n, worker, halts, size, max);
            var l := worker(n, Taken(items, size)).lists;
            && summary.stopped && summary.batches == 1
            && (x in l.acked || x in l.dropped || x.attempt >= max || Retried(x) in after)
  {
    var batch := Taken(items, size);
    VerdictStopsIff(batch, renameReply, deleteReply, outcomes, syncReply);
    NoItemIsLost(batch, renameReply, deleteReply, outcomes, syncReply, max, x);
    DrainUnfolds(items, n, worker, halts, size, max, worker(n, batch));
  }
}
