/** How a batch is worked off: renames, then deletes, then upserts, each kind in one request, and
    how the three replies sort the batch's items (obsidian/src/sync-engine.ts). */
module Batches {
  import opened QueueItems

  datatype Kind = Upserts | Deletes | Renames

  function KindOf(op: Op): Kind {
    match op
    case Upsert(_) => Upserts
    case Delete(_) => Deletes
    case Rename(_, _) => Renames
  }

  function OfKind(batch: seq<Item>, k: Kind): seq<Item> {
    Select(batch, op => KindOf(op) == k)
  }

  function NotOfKind(batch: seq<Item>, k: Kind): seq<Item> {
    Select(batch, op => KindOf(op) != k)
  }

  /** The errors a request can raise (obsidian/src/api-client.ts). */
  datatype ApiError = AuthError | TransientError | PermanentError | VaultNotRegistered | OtherError

  /** A request's outcome: the operations the server reported as failed, or an error. */
  datatype Reply = Answered(failed: set<Op>) | Raised(error: ApiError)

  datatype Verdict = Halt | Drop | Retry

  function Classify(err: ApiError): Verdict {
    match err
    case AuthError => Halt
    case TransientError => Halt
    case PermanentError => Drop
    case _ => Retry
  }

  datatype Lists = Lists(acked: seq<Item>, retry: seq<Item>, dropped: seq<Item>)

  datatype BatchResult = BatchResult(lists: Lists, stop: bool)

  const NoLists := Lists([], [], [])

  function Only(items: seq<Item>, ops: set<Op>): seq<Item> {
    Select(items, op => op in ops)
  }

  /** The rename and the delete phase: one request for all the items of the kind. */
  function RequestPhase(l: Lists, items: seq<Item>, reply: Reply): BatchResult {
    if items == [] then BatchResult(l, false)
    else
      match reply
      case Answered(failed) =>
        BatchResult(l.(acked := l.acked + Without(items, failed), retry := l.retry + Only(items, failed)), false)
      case Raised(err) =>
        match Classify(err)
        case Halt => BatchResult(l.(retry := l.retry + items), true)
        case Retry => BatchResult(l.(retry := l.retry + items), false)
        case Drop => BatchResult(l.(dropped := l.dropped + items), false)
  }

  /** What a request that did not stop puts back. */
  function Returned(items: seq<Item>, reply: Reply): seq<Item> {
    match reply
    case Answered(failed) => Only(items, failed)
    case Raised(err) => if Classify(err) == Drop then [] else items
  }

  /** What happened when an upsert's payload was built: the file was gone, it was read, or building failed. */
  datatype Read = Vanished | Built | BuildFailed

  /** The upserts whose read satisfies (or, with `negated`, does not satisfy) `r`. */
  function ByRead(upserts: seq<Item>, outcomes: seq<Read>, r: Read, negated: bool): seq<Item>
    requires |upserts| == |outcomes|
  {
    if upserts == [] then []
    else
      var n := |upserts| - 1;
      var rest := ByRead(upserts[..n], outcomes[..n], r, negated);
      if (outcomes[n] == r) != negated then rest + [upserts[n]] else rest
  }

  /** The upsert phase: build the payloads, then one request for all of them. */
  function UpsertPhase(l: Lists, upserts: seq<Item>, outcomes: seq<Read>, reply: Reply): BatchResult
    requires |upserts| == |outcomes|
  {
    var built := l.(acked := l.acked + ByRead(upserts, outcomes, Vanished, false),
                    retry := l.retry + ByRead(upserts, outcomes, BuildFailed, false));
    if Built !in outcomes then BatchResult(built, false)
    else
      var sent := ByRead(upserts, outcomes, BuildFailed, true);
      match reply
      case Answered(failed) =>
        BatchResult(built.(acked := built.acked + Without(sent, failed), retry := built.retry
            + Only(sent, failed)), false)
      case Raised(VaultNotRegistered) => BatchResult(built.(retry := built.retry + sent), false)
      case Raised(err) =>
        match Classify(err)
        case Halt => BatchResult(built.(retry := built.retry + upserts), true)
        case Retry => BatchResult(built.(retry := built.retry + upserts), false)
        case Drop => BatchResult(built.(dropped := built.dropped + upserts), false)
  }

  function BatchVerdict(batch: seq<Item>, renameReply: Reply, deleteReply: Reply, outcomes: seq<Read>,
        syncReply: Reply): BatchResult
    requires |outcomes| == |OfKind(batch, Upserts)|
  {
    var afterRenames := RequestPhase(NoLists, OfKind(batch, Renames), renameReply);
    if afterRenames.stop then afterRenames
    else
      var afterDeletes := RequestPhase(afterRenames.lists, OfKind(batch, Deletes), deleteReply);
      if afterDeletes.stop then afterDeletes
      else UpsertPhase(afterDeletes.lists, OfKind(batch, Upserts), outcomes, syncReply)
  }

  // ---- the loops of processBatch -------------------------------------------

  lemma SelectTake(items: seq<Item>, keep: Op -> bool, k: nat)
    requires k < |items|
    ensures Select(items[..k + 1], keep)
            == if keep(items[k].op) then Select(items[..k], keep) + [items[k]] else Select(items[..k], keep)
  {
    assert items[..k + 1][..k] == items[..k];
  }

  lemma TakeAll<T>(s: seq<T>)
    ensures s[..|s|] == s
  {}

  /** Sorts the items of one answered request into acked and retried ones. */
  method SortAnswered(l: Lists, items: seq<Item>, failed: set<Op>) returns (r: Lists)
    ensures r == l.(acked := l.acked + Without(items, failed), retry := l.retry + Only(items, failed))
  {
    var acked, retry := l.acked, l.retry;
    var i := 0;
    while i < |items|
      invariant 0 <= i <= |items|
      invariant acked == l.acked + Without(items[..i], failed)
      invariant retry == l.retry + Only(items[..i], failed)
    {
      SelectTake(items, op => op !in failed, i);
      SelectTake(items, op => op in failed, i);
      if items[i].op in failed {
        retry := retry + [items[i]];
      } else {
        acked := acked + [items[i]];
      }
      i := i + 1;
    }
    TakeAll(items);
    r := l.(acked := acked, retry := retry);
  }

  method WorkRequest(l: Lists, items: seq<Item>, reply: Reply) returns (res: BatchResult)
    ensures res == RequestPhase(l, items, reply)
  {
    if |items| == 0 {
      return BatchResult(l, false);
    }
    match reply {
      case Answered(failed) =>
        var sorted := SortAnswered(l, items, failed);
        res := BatchResult(sorted, false);
      case Raised(err) =>
        if err == VaultNotRegistered {
          res := BatchResult(l.(retry := l.retry + items), false);
        } else {
          var verdict := Classify(err);
          if verdict == Halt {
            return BatchResult(l.(retry := l.retry + items), true);
          }
          if verdict == Retry {
            res := BatchResult(l.(retry := l.retry + items), false);
          } else {
            res := BatchResult(l.(dropped := l.dropped + items), false);
          }
        }
    }
  }

  lemma {:induction false} ByReadTake(upserts: seq<Item>, outcomes: seq<Read>, r: Read, negated: bool, k: nat)
    requires |upserts| == |outcomes| && k < |upserts|
    ensures ByRead(upserts[..k + 1], outcomes[..k + 1], r, negated)
            == ByRead(upserts[..k], outcomes[..k], r, negated)
               + if (outcomes[k] == r) != negated then [upserts[k]] else []
  {
    assert upserts[..k + 1][..k] == upserts[..k];
    assert outcomes[..k + 1][..k] == outcomes[..k];
  }

  /** Builds the payloads one by one; `sent` collects the upserts that were not put back. */
  method BuildPayloads(l: Lists, upserts: seq<Item>, outcomes: seq<Read>) returns (r: Lists, sent: seq<Item>,
        payloads: nat)
    requires |upserts| == |outcomes|
    ensures r == l.(acked := l.acked + ByRead(upserts, outcomes, Vanished, false),
                    retry := l.retry + ByRead(upserts, outcomes, BuildFailed, false))
    ensures sent == ByRead(upserts, outcomes, BuildFailed, true)
    ensures payloads > 0 <==> Built in outcomes
  {
    r, sent, payloads := l, [], 0;
    var i := 0;
    while i < |upserts|
      invariant 0 <= i <= |upserts|
      invariant r == l.(acked := l.acked + ByRead(upserts[..i], outcomes[..i], Vanished, false),
                        retry := l.retry + ByRead(upserts[..i], outcomes[..i], BuildFailed, false))
      invariant sent == ByRead(upserts[..i], outcomes[..i], BuildFailed, true)
      invariant payloads > 0 <==> Built in outcomes[..i]
    {
      ByReadTake(upserts, outcomes, Vanished, false, i);
      ByReadTake(upserts, outcomes, BuildFailed, false, i);
      ByReadTake(upserts, outcomes, BuildFailed, true, i);
      assert outcomes[..i + 1] == outcomes[..i] + [outcomes[i]];
      match outcomes[i] {
        case Vanished => r := r.(acked := r.acked + [upserts[i]]);
        case Built => payloads := payloads + 1;
        case BuildFailed => r := r.(retry := r.retry + [upserts[i]]);
      }
      if outcomes[i] != BuildFailed {
        sent := sent + [upserts[i]];
      }
      i := i + 1;
    }
    TakeAll(upserts);
    TakeAll(outcomes);
  }

  method WorkUpserts(l: Lists, upserts: seq<Item>, outcomes: seq<Read>, reply: Reply) returns (res: BatchResult)
    requires |upserts| == |outcomes|
    ensures res == UpsertPhase(l, upserts, outcomes, reply)
  {
    if |upserts| == 0 {
      return BatchResult(l, false);
    }
    var built, sent, payloads := BuildPayloads(l, upserts, outcomes);
    if payloads == 0 {
      return BatchResult(built, false);
    }
    match reply {
      case Answered(failed) =>
        var sorted := SortAnswered(built, sent, failed);
        res := BatchResult(sorted, false);
      case Raised(err) =>
        if err == VaultNotRegistered {
          return BatchResult(built.(retry := built.retry + sent), false);
        }
        var verdict := Classify(err);
        if verdict == Halt {
          return BatchResult(built.(retry := built.retry + upserts), true);
        }
        if verdict == Retry {
          res := BatchResult(built.(retry := built.retry + upserts), false);
        } else {
          res := BatchResult(built.(dropped := built.dropped + upserts), false);
        }
    }
  }

  method ProcessBatch(batch: seq<Item>, renameReply: Reply, deleteReply: Reply, outcomes: seq<Read>, syncReply: Reply)
    returns (res: BatchResult)
    requires |outcomes| == |OfKind(batch, Upserts)|
    ensures res == BatchVerdict(batch, renameReply, deleteReply, outcomes, syncReply)
  {
    res := WorkRequest(NoLists, OfKind(batch, Renames), renameReply);
    if res.stop {
      return;
    }
    res := WorkRequest(res.lists, OfKind(batch, Deletes), deleteReply);
    if res.stop {
      return;
    }
    res := WorkUpserts(res.lists, OfKind(batch, Upserts), outcomes, syncReply);
  }

  // ---- which items end up where ----------------------------------------------

  lemma {:induction false} ByReadItems(upserts: seq<Item>, outcomes: seq<Read>, r: Read, negated: bool)
    requires |upserts| == |outcomes|
    ensures forall x :: x in ByRead(upserts, outcomes, r, negated)
                        <==> exists i :: 0 <= i < |upserts| && upserts[i] == x && (outcomes[i] == r) != negated
  {
    if upserts != [] {
      var n := |upserts| - 1;
      ByReadItems(upserts[..n], outcomes[..n], r, negated);
      var shorter := ByRead(upserts[..n], outcomes[..n], r, negated);
      forall x | x in ByRead(upserts, outcomes, r, negated)
        ensures exists i :: 0 <= i < |upserts| && upserts[i] == x && (outcomes[i] == r) != negated
      {
        if x in shorter {
          var i :| 0 <= i < n && upserts[..n][i] == x && (outcomes[..n][i] == r) != negated;
          assert upserts[i] == x && (outcomes[i] == r) != negated;
        } else {
          assert upserts[n] == x && (outcomes[n] == r) != negated;
        }
      }
      forall i | 0 <= i < |upserts| && (outcomes[i] == r) != negated
        ensures upserts[i] in ByRead(upserts, outcomes, r, negated)
      {
        if i < n {
          assert upserts[..n][i] == upserts[i] && outcomes[..n][i] == outcomes[i];
        }
      }
    }
  }

  ghost predicate InLists(l: Lists, x: Item) {
    x in l.acked || x in l.retry || x in l.dropped
  }

  /** The rename (or delete) phase sorts each of its items into a list, and puts nothing else there. */
  lemma RequestPhaseItems(l: Lists, items: seq<Item>, reply: Reply)
    ensures var res := RequestPhase(l, items, reply);
            && (forall x :: InLists(res.lists, x) <==> InLists(l, x) || x in items)
            && (forall x :: x in res.lists.retry ==> x in l.retry || x in items)
            && l.acked <= res.lists.acked && l.retry <= res.lists.retry && l.dropped <= res.lists.dropped
            && (res.stop ==> res.lists.dropped == l.dropped && res.lists.acked == l.acked)
  {
    match reply
    case Answered(failed) =>
      WithoutItems(items, failed);
      SelectItems(items, op => op in failed);
    case Raised(_) =>
  }

  lemma UpsertPhaseItems(l: Lists, upserts: seq<Item>, outcomes: seq<Read>, reply: Reply)
    requires |upserts| == |outcomes|
    ensures var res := UpsertPhase(l, upserts, outcomes, reply);
            && (forall x :: InLists(res.lists, x) <==> InLists(l, x) || x in upserts)
            && (forall x :: x in res.lists.retry ==> x in l.retry || x in upserts)
            && l.acked <= res.lists.acked && l.retry <= res.lists.retry && l.dropped <= res.lists.dropped
            && (res.stop ==> res.lists.dropped == l.dropped)
  {
    ByReadItems(upserts, outcomes, Vanished, false);
    ByReadItems(upserts, outcomes, BuildFailed, false);
    ByReadItems(upserts, outcomes, BuildFailed, true);
    var sent := ByRead(upserts, outcomes, BuildFailed, true);
    forall x | x in upserts
      ensures x in ByRead(upserts, outcomes, BuildFailed, false) || x in sent
      ensures Built !in outcomes ==>
                x in ByRead(upserts, outcomes, BuildFailed, false) || x in ByRead(upserts, outcomes, Vanished, false)
    {
      var i :| 0 <= i < |upserts| && upserts[i] == x;
      assert outcomes[i] == BuildFailed || outcomes[i] != BuildFailed;
      assert Built !in outcomes ==> outcomes[i] != Built;
    }
    match reply
    case Answered(failed) =>
      WithoutItems(sent, failed);
      SelectItems(sent, op => op in failed);
    case Raised(_) =>
  }

  lemma KindItems(batch: seq<Item>, k: Kind)
    ensures forall x :: x in OfKind(batch, k) <==> x in batch && KindOf(x.op) == k
    ensures forall x :: x in NotOfKind(batch, k) <==> x in batch && KindOf(x.op) != k
  {
    SelectItems(batch, op => KindOf(op) == k);
    SelectItems(batch, op => KindOf(op) != k);
  }

  /** The lists classify exactly the batch's items of kinds `ks`. */
  ghost predicate Classifies(batch: seq<Item>, l: Lists, ks: set<Kind>) {
    && (forall x :: InLists(l, x) ==> x in batch && KindOf(x.op) in ks)
    && (forall x :: x in batch && KindOf(x.op) in ks ==> InLists(l, x))
  }

  lemma NoListsClassify(batch: seq<Item>)
    ensures Classifies(batch, NoLists, {})
  {}

  lemma ClassifiedByRequest(batch: seq<Item>, l: Lists, reply: Reply, k: Kind, ks: set<Kind>)
    requires Classifies(batch, l, ks)
    ensures Classifies(batch, RequestPhase(l, OfKind(batch, k), reply).lists, ks + {k})
    ensures forall x :: x in RequestPhase(l, OfKind(batch, k), reply).lists.retry ==> x in l.retry || x in batch
  {
    KindItems(batch, k);
    RequestPhaseItems(l, OfKind(batch, k), reply);
  }

  lemma ClassifiedByUpserts(batch: seq<Item>, l: Lists, outcomes: seq<Read>, reply: Reply)
    requires Classifies(batch, l, {Renames, Deletes}) && |outcomes| == |OfKind(batch, Upserts)|
    ensures Classifies(batch, UpsertPhase(l, OfKind(batch, Upserts), outcomes, reply).lists,
                       {Renames, Deletes, Upserts})
  {
    KindItems(batch, Upserts);
    UpsertPhaseItems(l, OfKind(batch, Upserts), outcomes, reply);
  }

  /** A batch classifies whole kinds: the three of them, or those before the request that stopped it. */
  lemma VerdictKinds(batch: seq<Item>, renameReply: Reply, deleteReply: Reply, outcomes: seq<Read>, syncReply: Reply)
    returns (ks: set<Kind>)
    requires |outcomes| == |OfKind(batch, Upserts)|
    ensures var res := BatchVerdict(batch, renameReply, deleteReply, outcomes, syncReply);
            Classifies(batch, res.lists, ks) && Renames in ks && (!res.stop ==> ks == {Renames, Deletes, Upserts})
  {
    NoListsClassify(batch);
    var a := RequestPhase(NoLists, OfKind(batch, Renames), renameReply);
    ClassifiedByRequest(batch, NoLists, renameReply, Renames, {});
    ks := {Renames};
    assert {} + {Renames} == ks;
    if !a.stop {
      var b := RequestPhase(a.lists, OfKind(batch, Deletes), deleteReply);
      ClassifiedByRequest(batch, a.lists, deleteReply, Deletes, ks);
      assert {Renames} + {Deletes} == {Renames, Deletes};
      ks := {Renames, Deletes};
      if !b.stop {
        ClassifiedByUpserts(batch, b.lists, outcomes, syncReply);
        ks := {Renames, Deletes, Upserts};
      }
    }
  }

  /** A request drops its items only when it is refused for good. */
  lemma RequestDrops(l: Lists, items: seq<Item>, reply: Reply, x: Item)
    requires x in RequestPhase(l, items, reply).lists.dropped
    ensures x in l.dropped || (x in items && reply == Raised(PermanentError))
  {}

  lemma StopDropsOnlyRefused(batch: seq<Item>, renameReply: Reply, deleteReply: Reply, outcomes: seq<Read>,
        syncReply: Reply, x: Item)
    requires |outcomes| == |OfKind(batch, Upserts)|
    requires var res := BatchVerdict(batch, renameReply, deleteReply, outcomes, syncReply);
             res.stop && x in res.lists.dropped
    ensures || (x.op.Rename? && renameReply == Raised(PermanentError))
            || (x.op.Delete? && deleteReply == Raised(PermanentError))
  {
    KindItems(batch, Renames);
    KindItems(batch, Deletes);
    var a := RequestPhase(NoLists, OfKind(batch, Renames), renameReply);
    if a.stop {
      RequestDrops(NoLists, OfKind(batch, Renames), renameReply, x);
    } else {
      var b := RequestPhase(a.lists, OfKind(batch, Deletes), deleteReply);
      if !b.stop {
        UpsertPhaseItems(b.lists, OfKind(batch, Upserts), outcomes, syncReply);
      }
      RequestDrops(a.lists, OfKind(batch, Deletes), deleteReply, x);
      if x in a.lists.dropped {
        RequestDrops(NoLists, OfKind(batch, Renames), renameReply, x);
      }
    }
  }

  /** Unless it stops, a batch classifies each of its items; it never classifies anything else. When
      it stops, an item is dropped only because an earlier phase's request was refused for good. */
  lemma EveryItemIsClassified(batch: seq<Item>, renameReply: Reply, deleteReply: Reply, outcomes: seq<Read>,
        syncReply: Reply)
    requires |outcomes| == |OfKind(batch, Upserts)|
    ensures var res := BatchVerdict(batch, renameReply, deleteReply, outcomes, syncReply);
            && (forall x :: InLists(res.lists, x) ==> x in batch)
            && (!res.stop ==> forall x :: x in batch ==> InLists(res.lists, x))
            && (res.stop ==> forall x :: x in res.lists.dropped ==>
                  || (x.op.Rename? && renameReply == Raised(PermanentError))
                  || (x.op.Delete? && deleteReply == Raised(PermanentError)))
  {
    var res := BatchVerdict(batch, renameReply, deleteReply, outcomes, syncReply);
    var ks := VerdictKinds(batch, renameReply, deleteReply, outcomes, syncReply);
    forall x | res.stop && x in res.lists.dropped
      ensures || (x.op.Rename? && renameReply == Raised(PermanentError))
              || (x.op.Delete? && deleteReply == Raised(PermanentError))
    {
      StopDropsOnlyRefused(batch, renameReply, deleteReply, outcomes, syncReply, x);
    }
  }

  // ---- what each reply means, error by error ------------------------------------

  /** An expired token or a lost connection: nothing else may be sent now. */
  predicate EndsDrain(reply: Reply) {
    reply == Raised(AuthError) || reply == Raised(TransientError)
  }

  /** A batch stops exactly when one of the requests it makes meets such an error. */
  lemma VerdictStopsIff(batch: seq<Item>, renameReply: Reply, deleteReply: Reply, outcomes: seq<Read>, syncReply: Reply)
    requires |outcomes| == |OfKind(batch, Upserts)|
    ensures BatchVerdict(batch, renameReply, deleteReply, outcomes, syncReply).stop
            <==> || (EndsDrain(renameReply) && exists x :: x in batch && x.op.Rename?)
                 || (EndsDrain(deleteReply) && exists x :: x in batch && x.op.Delete?)
                 || (EndsDrain(syncReply) && Built in outcomes)
  {
    SomeOfKind(batch, Renames);
    SomeOfKind(batch, Deletes);
  }

  lemma SomeOfKind(batch: seq<Item>, k: Kind)
    ensures OfKind(batch, k) != [] <==> exists x :: x in batch && KindOf(x.op) == k
  {
    KindItems(batch, k);
    if OfKind(batch, k) != [] {
      assert OfKind(batch, k)[0] in OfKind(batch, k);
    }
  }

  /** The lists a rename or delete ends up on: its own request decides alone. Acknowledged unless reported as failed;
      dropped by a permanent refusal only; put back otherwise. */
  predicate SortedBy(l: Lists, x: Item, reply: Reply) {
    && (x in l.acked <==> reply.Answered? && x.op !in reply.failed)
    && (x in l.dropped <==> reply == Raised(PermanentError))
    && (x in l.retry <==> if reply.Answered? then x.op in reply.failed else reply != Raised(PermanentError))
  }

  lemma RequestSorts(l: Lists, items: seq<Item>, reply: Reply, x: Item)
    requires x in items && !InLists(l, x)
    ensures SortedBy(RequestPhase(l, items, reply).lists, x, reply)
  {
    if reply.Answered? {
      WithoutItems(items, reply.failed);
      SelectItems(items, op => op in reply.failed);
    }
  }

  lemma RequestLeavesOthers(l: Lists, items: seq<Item>, reply: Reply, x: Item)
    requires x !in items
    ensures var l' := RequestPhase(l, items, reply).lists;
            && (x in l'.acked <==> x in l.acked) && (x in l'.retry <==> x in l.retry)
            && (x in l'.dropped <==> x in l.dropped)
  {
    if reply.Answered? {
      WithoutItems(items, reply.failed);
      SelectItems(items, op => op in reply.failed);
    }
  }

  lemma UpsertsLeaveOthers(l: Lists, upserts: seq<Item>, outcomes: seq<Read>, reply: Reply, x: Item)
    requires |upserts| == |outcomes| && x !in upserts
    ensures var l' := UpsertPhase(l, upserts, outcomes, reply).lists;
            && (x in l'.acked <==> x in l.acked) && (x in l'.retry <==> x in l.retry)
            && (x in l'.dropped <==> x in l.dropped)
  {
    var alone := UpsertPhase(NoLists, upserts, outcomes, reply);
    UpsertPhaseItems(NoLists, upserts, outcomes, reply);
    UpsertPhaseSplits(l, upserts, outcomes, reply);
    assert !InLists(alone.lists, x);
  }

  lemma UpsertPhaseSplits(l: Lists, us: seq<Item>, outcomes: seq<Read>, reply: Reply)
    requires |us| == |outcomes|
    ensures var res, alone := UpsertPhase(l, us, outcomes, reply), UpsertPhase(NoLists, us, outcomes, reply);
            && res.lists.retry == l.retry + alone.lists.retry
            && res.lists.acked == l.acked + alone.lists.acked
            && res.lists.dropped == l.dropped + alone.lists.dropped
            && res.stop == alone.stop
  {}

  /** Some occurrence of the upsert had (or did not have) this read. */
  ghost predicate ReadAs(upserts: seq<Item>, outcomes: seq<Read>, x: Item, r: Read, negated: bool)
    requires |upserts| == |outcomes|
  {
    exists i :: 0 <= i < |upserts| && upserts[i] == x && (outcomes[i] == r) != negated
  }

  /** The lists an upsert ends up on. A vanished file is acknowledged, a file that could not be read put back. If
      anything was read, a request was made: its answer sorts what was sent, an unregistered vault puts that back,
      a permanent refusal drops all upserts, and any other error puts all of them back. */
  ghost predicate UpsertSortedBy(l: Lists, upserts: seq<Item>, outcomes: seq<Read>, reply: Reply, x: Item)
    requires |upserts| == |outcomes|
  {
    var sent := Built in outcomes && ReadAs(upserts, outcomes, x, BuildFailed, true);
    && (x in l.acked <==>
          ReadAs(upserts, outcomes, x, Vanished, false) || (sent && reply.Answered? && x.op !in reply.failed))
    && (x in l.dropped <==> Built in outcomes && reply == Raised(PermanentError))
    && (x in l.retry <==>
          || ReadAs(upserts, outcomes, x, BuildFailed, false)
          || (sent && reply.Answered? && x.op in reply.failed)
          || (sent && reply == Raised(VaultNotRegistered))
          || (Built in outcomes
              && (reply == Raised(AuthError) || reply == Raised(TransientError) || reply == Raised(OtherError))))
  }

  lemma UpsertsSort(upserts: seq<Item>, outcomes: seq<Read>, reply: Reply, x: Item)
    requires |upserts| == |outcomes| && x in upserts
    ensures UpsertSortedBy(UpsertPhase(NoLists, upserts, outcomes, reply).lists, upserts, outcomes, reply, x)
  {
    var sent := ByRead(upserts, outcomes, BuildFailed, true);
    ByReadItems(upserts, outcomes, Vanished, false);
    ByReadItems(upserts, outcomes, BuildFailed, false);
    ByReadItems(upserts, outcomes, BuildFailed, true);
    if reply.Answered? {
      WithoutItems(sent, reply.failed);
      SelectItems(sent, op => op in reply.failed);
    }
  }

  lemma RenameIsSorted(batch: seq<Item>, renameReply: Reply, deleteReply: Reply, outcomes: seq<Read>, syncReply: Reply,
        x: Item)
    requires |outcomes| == |OfKind(batch, Upserts)| && x in batch && x.op.Rename?
    ensures SortedBy(BatchVerdict(batch, renameReply, deleteReply, outcomes, syncReply).lists, x, renameReply)
  {
    var renames, deletes, us := OfKind(batch, Renames), OfKind(batch, Deletes), OfKind(batch, Upserts);
    KindItems(batch, Renames);
    KindItems(batch, Deletes);
    KindItems(batch, Upserts);
    var a := RequestPhase(NoLists, renames, renameReply);
    RequestSorts(NoLists, renames, renameReply, x);
    if !a.stop {
      RequestLeavesOthers(a.lists, deletes, deleteReply, x);
      UpsertsLeaveOthers(RequestPhase(a.lists, deletes, deleteReply).lists, us, outcomes, syncReply, x);
    }
  }

  lemma DeleteIsSorted(batch: seq<Item>, renameReply: Reply, deleteReply: Reply, outcomes: seq<Read>, syncReply: Reply,
        x: Item)
    requires |outcomes| == |OfKind(batch, Upserts)| && x in batch && x.op.Delete?
    ensures var l := BatchVerdict(batch, renameReply, deleteReply, outcomes, syncReply).lists;
            if EndsDrain(renameReply) && OfKind(batch, Renames) != [] then !InLists(l, x)
            else SortedBy(l, x, deleteReply)
  {
    var renames, deletes, us := OfKind(batch, Renames), OfKind(batch, Deletes), OfKind(batch, Upserts);
    KindItems(batch, Renames);
    KindItems(batch, Deletes);
    KindItems(batch, Upserts);
    var a := RequestPhase(NoLists, renames, renameReply);
    RequestLeavesOthers(NoLists, renames, renameReply, x);
    if !a.stop {
      RequestSorts(a.lists, deletes, deleteReply, x);
      UpsertsLeaveOthers(RequestPhase(a.lists, deletes, deleteReply).lists, us, outcomes, syncReply, x);
    }
  }

  lemma UpsertIsSorted(batch: seq<Item>, renameReply: Reply, deleteReply: Reply, outcomes: seq<Read>, syncReply: Reply,
        x: Item)
    requires |outcomes| == |OfKind(batch, Upserts)| && x in batch && x.op.Upsert?
    ensures var l := BatchVerdict(batch, renameReply, deleteReply, outcomes, syncReply).lists;
            if || (EndsDrain(renameReply) && OfKind(batch, Renames) != [])
               || (EndsDrain(deleteReply) && OfKind(batch, Deletes) != []) then !InLists(l, x)
            else UpsertSortedBy(l, OfKind(batch, Upserts), outcomes, syncReply, x)
  {
    var renames, deletes, us := OfKind(batch, Renames), OfKind(batch, Deletes), OfKind(batch, Upserts);
    KindItems(batch, Renames);
    KindItems(batch, Deletes);
    KindItems(batch, Upserts);
    var a := RequestPhase(NoLists, renames, renameReply);
    RequestLeavesOthers(NoLists, renames, renameReply, x);
    if !a.stop {
      var b := RequestPhase(a.lists, deletes, deleteReply);
      RequestLeavesOthers(a.lists, deletes, deleteReply, x);
      if !b.stop {
        UpsertsSort(us, outcomes, syncReply, x);
        UpsertPhaseSplits(b.lists, us, outcomes, syncReply);
      }
    }
  }

  /** The whole table: where each item of a batch ends up, for every combination of replies and reads. What a
      stopped batch did not come to is on no list. */
  lemma VerdictSorts(batch: seq<Item>, renameReply: Reply, deleteReply: Reply, outcomes: seq<Read>, syncReply: Reply,
        x: Item)
    requires |outcomes| == |OfKind(batch, Upserts)| && x in batch
    ensures var l := BatchVerdict(batch, renameReply, deleteReply, outcomes, syncReply).lists;
            var renamesStop := EndsDrain(renameReply) && exists y :: y in batch && y.op.Rename?;
            var deletesStop := EndsDrain(deleteReply) && exists y :: y in batch && y.op.Delete?;
            match x.op
            case Rename(_, _) => SortedBy(l, x, renameReply)
            case Delete(_) => if renamesStop then !InLists(l, x) else SortedBy(l, x, deleteReply)
            case Upsert(_) =>
              if renamesStop || deletesStop then !InLists(l, x)
              else UpsertSortedBy(l, OfKind(batch, Upserts), outcomes, syncReply, x)
  {
    SomeOfKind(batch, Renames);
    SomeOfKind(batch, Deletes);
    match x.op
    case Rename(_, _) => RenameIsSorted(batch, renameReply, deleteReply, outcomes, syncReply, x);
    case Delete(_) => DeleteIsSorted(batch, renameReply, deleteReply, outcomes, syncReply, x);
    case Upsert(_) => UpsertIsSorted(batch, renameReply, deleteReply, outcomes, syncReply, x);
  }

  // ---- how often an item is put back -----------------------------------------

  lemma {:induction false} SelectCounts(items: seq<Item>, keep: Op -> bool)
    ensures multiset(Select(items, keep)) + multiset(Select(items, op => !keep(op))) == multiset(items)
  {
    if items != [] {
      var init, it := items[..|items| - 1], items[|items| - 1];
      SelectCounts(init, keep);
      assert items == init + [it];
    }
  }

  lemma {:induction false} ByReadCounts(upserts: seq<Item>, outcomes: seq<Read>, r: Read, negated: bool)
    requires |upserts| == |outcomes|
    ensures multiset(ByRead(upserts, outcomes, r, negated)) <= multiset(upserts)
  {
    if upserts != [] {
      var n := |upserts| - 1;
      ByReadCounts(upserts[..n], outcomes[..n], r, negated);
      assert upserts == upserts[..n] + [upserts[n]];
    }
  }

  lemma {:induction false} SelectAtMost(items: seq<Item>, keep: Op -> bool)
    ensures multiset(Select(items, keep)) <= multiset(items)
  {
    SelectCounts(items, keep);
  }

  lemma KindCounts(batch: seq<Item>)
    ensures multiset(OfKind(batch, Renames)) + multiset(OfKind(batch, Deletes))
        + multiset(OfKind(batch, Upserts)) == multiset(batch)
    decreases |batch|
  {
    if batch != [] {
      var init, it := batch[..|batch| - 1], batch[|batch| - 1];
      KindCounts(init);
      assert batch == init + [it];
    }
  }

  lemma RequestPhaseRetries(l: Lists, items: seq<Item>, reply: Reply)
    ensures multiset(RequestPhase(l, items, reply).lists.retry) <= multiset(l.retry) + multiset(items)
  {
    match reply
    case Answered(failed) => SelectAtMost(items, op => op in failed);
    case Raised(_) =>
  }

  lemma UpsertPhaseRetries(l: Lists, upserts: seq<Item>, outcomes: seq<Read>, reply: Reply)
    requires |upserts| == |outcomes|
    ensures multiset(UpsertPhase(l, upserts, outcomes, reply).lists.retry)
            <= multiset(l.retry) + multiset(upserts) + multiset(upserts)
  {
    ByReadCounts(upserts, outcomes, BuildFailed, false);
    ByReadCounts(upserts, outcomes, BuildFailed, true);
    match reply
    case Answered(failed) => SelectAtMost(ByRead(upserts, outcomes, BuildFailed, true), op => op in failed);
    case Raised(_) =>
  }

  lemma {:induction false} ByReadSplits(upserts: seq<Item>, outcomes: seq<Read>, r: Read)
    requires |upserts| == |outcomes|
    ensures multiset(ByRead(upserts, outcomes, r, false)) + multiset(ByRead(upserts, outcomes, r, true))
            == multiset(upserts)
  {
    if upserts != [] {
      var n := |upserts| - 1;
      ByReadSplits(upserts[..n], outcomes[..n], r);
      assert upserts == upserts[..n] + [upserts[n]];
    }
  }

  function Total(l: Lists): multiset<Item> {
    multiset(l.acked) + multiset(l.retry) + multiset(l.dropped)
  }

  lemma RequestCounts(l: Lists, items: seq<Item>, reply: Reply)
    ensures Total(RequestPhase(l, items, reply).lists) == Total(l) + multiset(items)
  {
    match reply
    case Answered(failed) =>
      SelectCounts(items, op => op in failed);
      SelectAgree(items, op => op !in failed, op => !((o: Op) => o in failed)(op));
      assert multiset(Only(items, failed)) + multiset(Without(items, failed)) == multiset(items);
    case Raised(_) =>
  }

  /** The items the upsert phase lists beyond one listing of each upsert. */
  function ListedAgain(upserts: seq<Item>, outcomes: seq<Read>, reply: Reply): multiset<Item>
    requires |upserts| == |outcomes|
  {
    if Built !in outcomes then multiset{}
    else
      multiset(ByRead(upserts, outcomes, Vanished, false))
      + if reply.Raised? && reply.error != VaultNotRegistered
        then multiset(ByRead(upserts, outcomes, BuildFailed, false)) else multiset{}
  }

  lemma {:induction false} NothingBuilt(upserts: seq<Item>, outcomes: seq<Read>)
    requires |upserts| == |outcomes| && Built !in outcomes
    ensures ByRead(upserts, outcomes, BuildFailed, true) == ByRead(upserts, outcomes, Vanished, false)
  {
    if upserts != [] {
      var n := |upserts| - 1;
      assert outcomes[n] in outcomes;
      NothingBuilt(upserts[..n], outcomes[..n]);
    }
  }

  lemma CountsUnsent(upserts: seq<Item>, outcomes: seq<Read>, reply: Reply)
    requires |upserts| == |outcomes| && Built !in outcomes
    ensures Total(UpsertPhase(NoLists, upserts, outcomes, reply).lists) == multiset(upserts)
  {
    ByReadSplits(upserts, outcomes, BuildFailed);
    NothingBuilt(upserts, outcomes);
  }

  lemma {:induction false} CountsAnswered(upserts: seq<Item>, outcomes: seq<Read>, failed: set<Op>)
    requires |upserts| == |outcomes| && Built in outcomes
    ensures Total(UpsertPhase(NoLists, upserts, outcomes, Answered(failed)).lists)
            == multiset(upserts) + multiset(ByRead(upserts, outcomes, Vanished, false))
  {
    var sent := ByRead(upserts, outcomes, BuildFailed, true);
    ByReadSplits(upserts, outcomes, BuildFailed);
    RequestCounts(NoLists, sent, Answered(failed));
    assert multiset(Without(sent, failed)) + multiset(Only(sent, failed)) == multiset(sent) by {
      if sent != [] {
        assert Total(RequestPhase(NoLists, sent, Answered(failed)).lists)
            == multiset(Without(sent, failed)) + multiset(Only(sent, failed));
      }
    }
  }

  lemma {:induction false} CountsRaised(upserts: seq<Item>, outcomes: seq<Read>, err: ApiError)
    requires |upserts| == |outcomes| && Built in outcomes
    ensures Total(UpsertPhase(NoLists, upserts, outcomes, Raised(err)).lists)
            == multiset(upserts) + multiset(ByRead(upserts, outcomes, Vanished, false))
               + if err == VaultNotRegistered then multiset{}
                 else multiset(ByRead(upserts, outcomes, BuildFailed, false))
  {
    ByReadSplits(upserts, outcomes, BuildFailed);
  }

  /** The upsert phase lists each upsert once; next to a file that was read, a vanished one is listed again, as
      acknowledged, put back or dropped like the others, and so is an unreadable one if the request breaks or is
      refused. */
  lemma UpsertCounts(upserts: seq<Item>, outcomes: seq<Read>, reply: Reply)
    requires |upserts| == |outcomes|
    ensures Total(UpsertPhase(NoLists, upserts, outcomes, reply).lists)
            == multiset(upserts) + ListedAgain(upserts, outcomes, reply)
  {
    if Built !in outcomes {
      CountsUnsent(upserts, outcomes, reply);
    } else if reply.Answered? {
      CountsAnswered(upserts, outcomes, reply.failed);
    } else {
      CountsRaised(upserts, outcomes, reply.error);
    }
  }

  lemma UpsertTotal(l: Lists, us: seq<Item>, outcomes: seq<Read>, reply: Reply)
    requires |us| == |outcomes|
    ensures Total(UpsertPhase(l, us, outcomes, reply).lists)
            == Total(l) + Total(UpsertPhase(NoLists, us, outcomes, reply).lists)
  {
    UpsertPhaseSplits(l, us, outcomes, reply);
  }

  /** A batch that does not stop lists each of its items once, and those again. */
  lemma VerdictCounts(batch: seq<Item>, renameReply: Reply, deleteReply: Reply, outcomes: seq<Read>, syncReply: Reply)
    requires |outcomes| == |OfKind(batch, Upserts)|
    ensures var res := BatchVerdict(batch, renameReply, deleteReply, outcomes, syncReply);
            !res.stop ==>
              Total(res.lists) == multiset(batch) + ListedAgain(OfKind(batch, Upserts), outcomes, syncReply)
  {
    var renames, deletes, us := OfKind(batch, Renames), OfKind(batch, Deletes), OfKind(batch, Upserts);
    var a := RequestPhase(NoLists, renames, renameReply).lists;
    var b := RequestPhase(a, deletes, deleteReply).lists;
    RequestCounts(NoLists, renames, renameReply);
    RequestCounts(a, deletes, deleteReply);
    UpsertCounts(us, outcomes, syncReply);
    UpsertTotal(b, us, outcomes, syncReply);
    KindCounts(batch);
  }

  /** A batch puts each item back at most twice (a build failure can be listed again when the
      request then fails). */
  lemma RetriesAtMostTwice(batch: seq<Item>, renameReply: Reply, deleteReply: Reply, outcomes: seq<Read>,
        syncReply: Reply)
    requires |outcomes| == |OfKind(batch, Upserts)|
    ensures multiset(BatchVerdict(batch, renameReply, deleteReply, outcomes, syncReply).lists.retry)
            <= multiset(batch) + multiset(batch)
  {
    KindCounts(batch);
    var a := RequestPhase(NoLists, OfKind(batch, Renames), renameReply);
    RequestPhaseRetries(NoLists, OfKind(batch, Renames), renameReply);
    if !a.stop {
      var b := RequestPhase(a.lists, OfKind(batch, Deletes), deleteReply);
      RequestPhaseRetries(a.lists, OfKind(batch, Deletes), deleteReply);
      if !b.stop {
        UpsertPhaseRetries(b.lists, OfKind(batch, Upserts), outcomes, syncReply);
      }
    }
  }

  /** The bound is attained: one upsert whose build fails next to one that is sent, in a request
      that raises an unknown error, comes back twice. */
  lemma RetriedTwice(x: Item, y: Item)
    requires x.op.Upsert? && y.op.Upsert? && x != y
    ensures OfKind([x, y], Upserts) == [x, y]
    ensures BatchVerdict([x, y], Answered({}), Answered({}), [BuildFailed, Built],
        Raised(OtherError)).lists.retry == [x, x, y]
  {
    SelectPair(x, y, op => KindOf(op) == Renames);
    SelectPair(x, y, op => KindOf(op) == Deletes);
    SelectPair(x, y, op => KindOf(op) == Upserts);
    var outcomes := [BuildFailed, Built];
    assert outcomes[1] == Built;
    assert [x, y][..1] == [x] && outcomes[..1] == [BuildFailed];
    assert [x][..0] == [] && [BuildFailed][..0] == [];
    assert ByRead([x], [BuildFailed], BuildFailed, false) == [x];
    assert ByRead([x, y], outcomes, BuildFailed, false) == [x];
  }

  lemma SelectOne(x: Item, keep: Op -> bool)
    ensures Select([x], keep) == if keep(x.op) then [x] else []
  {
    assert [x][..0] == [];
  }

  lemma KindOfOne(x: Item, k: Kind)
    ensures OfKind([x], k) == if KindOf(x.op) == k then [x] else []
  {
    SelectOne(x, op => KindOf(op) == k);
  }

  lemma KindOfPair(x: Item, y: Item, k: Kind)
    ensures OfKind([x, y], k) == (if KindOf(x.op) == k then [x] else []) + (if KindOf(y.op) == k then [y] else [])
  {
    SelectPair(x, y, op => KindOf(op) == k);
  }

  lemma OneAnswered(x: Item, failed: set<Op>)
    ensures Without([x], failed) == if x.op in failed then [] else [x]
    ensures Only([x], failed) == if x.op in failed then [x] else []
  {
    SelectOne(x, op => op !in failed);
    SelectOne(x, op => op in failed);
  }

  lemma PairAnswered(x: Item, y: Item, failed: set<Op>)
    ensures Without([x, y], failed) == (if x.op in failed then [] else [x]) + (if y.op in failed then [] else [y])
    ensures Only([x, y], failed) == (if x.op in failed then [x] else []) + (if y.op in failed then [y] else [])
  {
    SelectPair(x, y, op => op !in failed);
    SelectPair(x, y, op => op in failed);
  }

  lemma SelectPair(x: Item, y: Item, keep: Op -> bool)
    ensures Select([x, y], keep) == (if keep(x.op) then [x] else []) + (if keep(y.op) then [y] else [])
  {
    assert [x, y][..1] == [x] && [x][..0] == [];
    assert Select([x], keep) == if keep(x.op) then [x] else [];
  }
}
