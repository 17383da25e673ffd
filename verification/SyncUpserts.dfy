/** The upsert phase keeps the sync invariant: reading payloads while the vault changes, and the
    upsert request with any outcome. */
module SyncUpserts {
  import opened Common
  import opened QueueItems
  import opened Batches
  import opened Draining
  import opened SyncStates
  import opened SyncSafety
  import opened SyncRequests

  lemma UpsertsOnly(batch: seq<Item>)
    ensures forall i :: 0 <= i < |OfKind(batch, Upserts)| ==>
              OfKind(batch, Upserts)[i].op.Upsert? && OfKind(batch, Upserts)[i] in batch
  {
    KindItems(batch, Upserts);
    forall i | 0 <= i < |OfKind(batch, Upserts)|
      ensures OfKind(batch, Upserts)[i].op.Upsert? && OfKind(batch, Upserts)[i] in batch
    {
      assert OfKind(batch, Upserts)[i] in OfKind(batch, Upserts);
    }
  }

  /** What is read now is as good as a server copy for the operations still to come. */
  lemma ReadIsSettled(c: Config, st: State, p: Path)
    requires Shape(c, st) && PathOk(c, st, p) && st.flight.Building? && c.Synced(p)
    ensures Settled(c, st.vault, st.pd.debounced, st.pd.queue, p, if p in st.vault
        then Some(st.vault[p].content) else None)
  {
    ViewConcat(Owed(st.flight), st.pd.queue, p);
    LastNone(st.pd.queue, p, true);
    LastNone(st.pd.queue, p, false);
    LastKind(st.pd.queue, p, true);
  }

  lemma ReadNextKeepsPath(c: Config, st: State, outcome: Read, now: int, p: Path)
    requires Shape(c, st) && PathOk(c, st, p) && Enabled(c, st, ReadNext(outcome))
    ensures PathOk(c, Next(c, st, ReadNext(outcome), now), p)
  {
    var us := OfKind(st.flight.batch, Upserts);
    UpsertsOnly(st.flight.batch);
    if us[|st.flight.outcomes|].op == Upsert(p) {
      ReadIsSettled(c, st, p);
    }
  }

  lemma ReadNextKeepsShape(c: Config, st: State, outcome: Read, now: int)
    requires Shape(c, st) && Enabled(c, st, ReadNext(outcome))
    ensures Shape(c, Next(c, st, ReadNext(outcome), now))
  {
    var us := OfKind(st.flight.batch, Upserts);
    var k := |st.flight.outcomes|;
    UpsertsOnly(st.flight.batch);
    TouchedItem(us, us[k], us[k].op.path);
  }

  lemma ReadNextKeepsInv(c: Config, st: State, outcome: Read, now: int)
    requires Inv(c, st) && Enabled(c, st, ReadNext(outcome))
    ensures Inv(c, Next(c, st, ReadNext(outcome), now))
  {
    ReadNextKeepsShape(c, st, outcome, now);
    forall p | p !in st.stale ensures PathOk(c, Next(c, st, ReadNext(outcome), now), p) {
      ReadNextKeepsPath(c, st, outcome, now, p);
    }
  }

  // ---- the upsert request --------------------------------------------------------------

  lemma SyncEffectAt(server: map<Path, Note>, synced: map<Path, Effect>, p: Path)
    ensures Copy(SyncEffect(server, synced), p)
            == if AfterSync(server, synced, p).Some? then Some(AfterSync(server, synced, p).value.content) else None
  {}

  /** An upsert that is neither put back nor dropped was acknowledged, and either its file was gone
      or its payload was stored. */
  lemma NotReturned(us: seq<Item>, outcomes: seq<Read>, reply: Reply, i: nat)
    requires |us| == |outcomes| && i < |us|
    requires us[i] !in UpsertPhase(NoLists, us, outcomes, reply).lists.retry
    requires us[i] !in UpsertPhase(NoLists, us, outcomes, reply).lists.dropped
    ensures us[i] in UpsertPhase(NoLists, us, outcomes, reply).lists.acked
    ensures !UpsertPhase(NoLists, us, outcomes, reply).stop
    ensures outcomes[i] == Vanished || (outcomes[i] == Built && reply.Answered? && us[i].op !in reply.failed)
  {
    var res := UpsertPhase(NoLists, us, outcomes, reply);
    UpsertPhaseItems(NoLists, us, outcomes, reply);
    ByReadItems(us, outcomes, BuildFailed, false);
    ByReadItems(us, outcomes, BuildFailed, true);
    assert us[i] in us;
    assert InLists(res.lists, us[i]);
    if outcomes[i] == BuildFailed {
      assert false;
    }
    if outcomes[i] == Built {
      assert Built in outcomes;
      assert us[i] in ByRead(us, outcomes, BuildFailed, true);
      match reply
      case Answered(failed) =>
        SelectItems(ByRead(us, outcomes, BuildFailed, true), op => op in failed);
      case Raised(_) =>
    }
  }

  /** A path whose upserts are all acknowledged now holds what the vault holds, if nothing later is
      pending for it. */
  lemma {:induction false} AcknowledgedIsStored(c: Config, st: State, reply: Reply, synced: map<Path, Effect>, p: Path)
    requires Shape(c, st) && Enabled(c, st, SyncReply(reply, synced)) && ReadsOk(c, st, p)
    requires var us := OfKind(st.flight.batch, Upserts);
             var alone := UpsertPhase(NoLists, us, st.flight.outcomes, reply);
             p in Touched(us) && p !in Touched(alone.lists.retry) && p !in Touched(alone.lists.dropped)
    requires p !in UnstoredNotes(st.flight.payloads, synced, reply)
    requires Last(st.pd.queue, p, false).None? && p !in st.pd.debounced && Want(c, st.vault, p).Some?
    ensures Copy(SyncEffect(st.server, synced), p) == Want(c, st.vault, p)
  {
    var us := OfKind(st.flight.batch, Upserts);
    var alone := UpsertPhase(NoLists, us, st.flight.outcomes, reply);
    UpsertsOnly(st.flight.batch);
    var i :| 0 <= i < |us| && p in OpPaths(us[i].op);
    assert us[i].op == Upsert(p);
    if us[i] in alone.lists.retry { TouchedItem(alone.lists.retry, us[i], p); }
    if us[i] in alone.lists.dropped { TouchedItem(alone.lists.dropped, us[i], p); }
    NotReturned(us, st.flight.outcomes, reply, i);
    SyncEffectAt(st.server, synced, p);
  }

  /** An unwanted path with no later delete or rename was not sent. */
  lemma {:induction false} UnwantedIsNotSent(c: Config, st: State, p: Path)
    requires st.flight.Building? && ReadsOk(c, st, p)
    requires Want(c, st.vault, p).None? && Last(st.pd.queue, p, true).None?
    ensures p !in st.flight.payloads
  {}

  lemma UpsertPhaseFacts(c: Config, st: State, reply: Reply)
    requires Shape(c, st) && st.flight.Building? && |st.flight.outcomes| == |OfKind(st.flight.batch, Upserts)|
    ensures var us := OfKind(st.flight.batch, Upserts);
            && (forall x :: x in us ==> x.op.Upsert?)
            && (forall x :: x in UpsertsBack(st, reply) ==> x.op.Upsert? && x in us)
            && (forall x :: x in st.flight.lists.retry ==> !x.op.Upsert?)
  {
    var us, l := OfKind(st.flight.batch, Upserts), st.flight.lists;
    KindItems(st.flight.batch, Upserts);
    UpsertPhaseItems(NoLists, us, st.flight.outcomes, reply);
    forall x | x in l.retry ensures !x.op.Upsert? { assert InLists(l, x); }
  }

  lemma UnwantedSettles(c: Config, st: State, reply: Reply, synced: map<Path, Effect>, p: Path)
    requires Shape(c, st) && PathOk(c, st, p) && Enabled(c, st, SyncReply(reply, synced))
    requires Want(c, st.vault, p).None?
    ensures Settled(c, st.vault, st.pd.debounced, (st.flight.lists.retry + UpsertsBack(st, reply)) + st.pd.queue, p,
                    Copy(SyncEffect(st.server, synced), p))
  {
    UpsertPhaseFacts(c, st, reply);
    SyncEffectAt(st.server, synced, p);
    if Last(st.pd.queue, p, true).None? {
      UnwantedIsNotSent(c, st, p);
    }
    UnwantedStaysSettled(c, st, OfKind(st.flight.batch, Upserts), UpsertsBack(st, reply), p,
      Copy(SyncEffect(st.server, synced), p));
  }

  lemma {:induction false} WantedSettles(c: Config, st: State, reply: Reply, synced: map<Path, Effect>, p: Path)
    requires Shape(c, st) && PathOk(c, st, p) && Enabled(c, st, SyncReply(reply, synced))
    requires p !in UnstoredNotes(st.flight.payloads, synced, reply) && Want(c, st.vault, p).Some?
    requires var us, l := OfKind(st.flight.batch, Upserts), st.flight.lists;
             && p !in Touched(UpsertPhase(NoLists, us, st.flight.outcomes, reply).lists.dropped)
             && (p in Touched(us) && p !in Touched(UpsertsBack(st, reply)) ==>
                   Last(st.pd.queue, p, false).Some? || p in st.pd.debounced || p !in Touched(l.retry))
    ensures Settled(c, st.vault, st.pd.debounced, (st.flight.lists.retry + UpsertsBack(st, reply)) + st.pd.queue, p,
                    Copy(SyncEffect(st.server, synced), p))
  {
    var us := OfKind(st.flight.batch, Upserts);
    UpsertPhaseFacts(c, st, reply);
    if p !in Touched(us) {
      NotSent(c, st, p);
      SyncEffectAt(st.server, synced, p);
    } else if p !in st.pd.debounced && Last(st.pd.queue, p, false).None? && p !in Touched(UpsertsBack(st, reply)) {
      AcknowledgedIsStored(c, st, reply, synced, p);
    }
    WantedStaysSettled(c, st, us, UpsertsBack(st, reply), p, Copy(SyncEffect(st.server, synced), p));
  }

  lemma NotSent(c: Config, st: State, p: Path)
    requires Shape(c, st) && st.flight.Building? && p !in Touched(OfKind(st.flight.batch, Upserts))
    ensures p !in st.flight.payloads
  {}

  /** An unwanted path, seen across the upsert phase: its deletes and renames stay. */
  lemma {:induction false} UnwantedStaysSettled(c: Config, st: State, us: seq<Item>, back: seq<Item>, p: Path,
        copy: Option<Content>)
    requires st.flight.Building? && us == OfKind(st.flight.batch, Upserts) && PathOk(c, st, p)
        && Want(c, st.vault, p).None?
    requires (forall x :: x in us ==> x.op.Upsert?) && (forall x :: x in back ==> x.op.Upsert?)
    requires Last(st.pd.queue, p, true).None? ==> copy == Copy(st.server, p)
    ensures Settled(c, st.vault, st.pd.debounced, (st.flight.lists.retry + back) + st.pd.queue, p, copy)
  {
    var l, q := st.flight.lists, st.pd.queue;
    UpsertsLast(us, p);
    UpsertsLast(back, p);
    ViewConcat(l.retry + us, q, p);
    ViewConcat(l.retry, us, p);
    ViewConcat(l.retry + back, q, p);
    ViewConcat(l.retry, back, p);
  }

  /** A wanted path, seen across the upsert phase: its upsert is put back, or was never there, or was
      stored. */
  lemma {:induction false} WantedStaysSettled(c: Config, st: State, us: seq<Item>, back: seq<Item>, p: Path,
        copy: Option<Content>)
    requires st.flight.Building? && us == OfKind(st.flight.batch, Upserts) && PathOk(c, st, p)
        && Want(c, st.vault, p).Some?
    requires (forall x :: x in us ==> x.op.Upsert?) && (forall x :: x in back ==> x.op.Upsert? && x in us)
    requires forall x :: x in st.flight.lists.retry ==> !x.op.Upsert?
    requires p !in Touched(us) ==> copy == Copy(st.server, p)
    requires p !in st.pd.debounced && Last(st.pd.queue, p, false).None? && p in Touched(us) && p !in Touched(back) ==>
               copy == Want(c, st.vault, p) && p !in Touched(st.flight.lists.retry)
    ensures Settled(c, st.vault, st.pd.debounced, (st.flight.lists.retry + back) + st.pd.queue, p, copy)
  {
    var l, q := st.flight.lists, st.pd.queue;
    UpsertsLast(us, p);
    UpsertsLast(back, p);
    if p in Touched(back) { TouchedSubset(back, us, p); }
    ViewConcat(l.retry + us, q, p);
    ViewConcat(l.retry, us, p);
    ViewConcat(l.retry + back, q, p);
    ViewConcat(l.retry, back, p);
    TouchedLast(l.retry, p);
    LastKind(l.retry, p, false);
  }

  /** A delete or rename is the last operation on the path, no upsert follows it. */
  lemma {:induction false} HardEndIsUnsettled(a: seq<Item>, back: seq<Item>, q: seq<Item>, p: Path)
    requires (forall x :: x in a ==> !x.op.Upsert?) && (forall x :: x in back ==> x.op.Upsert?)
    requires p in Touched(a) && p !in Touched(back) && p !in Touched(q)
    ensures Last((a + back) + q, p, false).Some? && !Last((a + back) + q, p, false).value.Upsert?
  {
    ViewConcat(a + back, q, p);
    ViewConcat(a, back, p);
    TouchedLast(q, p);
    TouchedLast(back, p);
    TouchedLast(a, p);
    LastKind(a, p, false);
  }

  lemma UpsertBackIff(c: Config, st: State, reply: Reply, synced: map<Path, Effect>, p: Path)
    requires Shape(c, st) && PathOk(c, st, p) && Enabled(c, st, SyncReply(reply, synced))
    requires p !in UnstoredNotes(st.flight.payloads, synced, reply)
    requires p !in Touched(UpsertPhase(NoLists, OfKind(st.flight.batch, Upserts), st.flight.outcomes, reply)
                             .lists.dropped)
    ensures Settled(c, st.vault, st.pd.debounced, (st.flight.lists.retry + UpsertsBack(st, reply)) + st.pd.queue, p,
                    Copy(SyncEffect(st.server, synced), p))
            <==> !(&& Want(c, st.vault, p).Some? && p !in st.pd.debounced && p !in Touched(st.pd.queue)
                   && p in Touched(st.flight.lists.retry) && p !in Touched(UpsertsBack(st, reply)))
  {
    var l, q, back := st.flight.lists, st.pd.queue, UpsertsBack(st, reply);
    TouchedLast(q, p);
    if Want(c, st.vault, p).None? {
      UnwantedSettles(c, st, reply, synced, p);
    } else if p in Touched(l.retry) && p !in Touched(back) && p !in Touched(q) && p !in st.pd.debounced {
      UpsertPhaseFacts(c, st, reply);
      HardEndIsUnsettled(l.retry, back, q, p);
    } else {
      WantedSettles(c, st, reply, synced, p);
    }
  }

  lemma SyncRetry(batch: seq<Item>, l: Lists, outcomes: seq<Read>, reply: Reply)
    requires Classifies(batch, l, {Renames, Deletes}) && |outcomes| == |OfKind(batch, Upserts)|
    ensures var l' := UpsertPhase(l, OfKind(batch, Upserts), outcomes, reply).lists;
            && ToRetry(batch, l') == l.retry + UpsertPhase(NoLists, OfKind(batch, Upserts), outcomes, reply).lists.retry
            && forall x :: x in l'.retry ==> x in batch
  {
    var us := OfKind(batch, Upserts);
    var l' := UpsertPhase(l, us, outcomes, reply).lists;
    KindItems(batch, Upserts);
    UpsertPhaseItems(l, us, outcomes, reply);
    UpsertPhaseSplits(l, us, outcomes, reply);
    assert forall x :: x in l.retry ==> InLists(l, x);
    forall x | x in batch ensures InLists(l', x) {
      assert KindOf(x.op) in {Renames, Deletes} || x in us;
    }
    assert Classifies(batch, l', {Renames, Deletes, Upserts});
    UnhandledKinds(batch, l', {Renames, Deletes, Upserts});
  }

  lemma SyncReplyKeepsInv(c: Config, st: State, reply: Reply, synced: map<Path, Effect>, now: int)
    requires Inv(c, st) && Enabled(c, st, SyncReply(reply, synced))
    ensures Inv(c, Next(c, st, SyncReply(reply, synced), now))
  {
    var batch, l := st.flight.batch, st.flight.lists;
    var us := OfKind(batch, Upserts);
    var res := UpsertPhase(l, us, st.flight.outcomes, reply);
    var lost := LostByNotes(c, st, synced, reply);
    SyncRetry(batch, l, st.flight.outcomes, reply);
    forall p | p !in st.stale && p !in lost
      ensures Settled(c, st.vault, st.pd.debounced, ToRetry(batch, res.lists)
          + st.pd.queue, p, Copy(SyncEffect(st.server, synced), p))
    {
      UpsertBackIff(c, st, reply, synced, p);
    }
    FinishKeepsInv(c, st, batch, res.lists, SyncEffect(st.server, synced), lost);
  }
}
