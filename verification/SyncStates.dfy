/** The sync protocol as a step system: vault events, debounces, batches in flight, requests with
    any outcome, reconciles and restarts (obsidian/src/sync-engine.ts, obsidian/src/queue.ts). */
module SyncStates {
  import opened Common
  import opened QueueItems
  import opened Batches
  import opened Draining

  type Content = string

  /** A file of the vault. */
  datatype File = File(content: Content, mtime: int, size: nat)

  /** A live note on the server; old rows have no size. */
  datatype Note = Note(content: Content, mtime: int, size: Option<nat>)

  /** The settings of a run: which paths are tracked (by extension), excluded, and Markdown. */
  datatype Config = Config(tracked: Path -> bool, excluded: Path -> bool, markdown: Path -> bool, batchSize: nat,
      maxAttempts: nat)
  {
    predicate Synced(p: Path) { tracked(p) && !excluded(p) }
  }

  // ---- event handlers ----------------------------------------------------------

  /** The engine's debounced Markdown edits, the queue, and what was last persisted of it. */
  datatype Pending = Pending(debounced: set<Path>, queue: seq<Item>, saved: seq<Item>)
  {
    function Put(items: seq<Item>): Pending { Pending(debounced, items, items) }
  }

  /** onCreate and onModify. */
  function OnEdit(c: Config, pd: Pending, p: Path, now: int): Pending {
    if !c.Synced(p) then pd
    else if c.markdown(p) then pd.(debounced := pd.debounced + {p})
    else pd.Put(EnqueueUpsert(pd.queue, p, now))
  }

  function OnDelete(c: Config, pd: Pending, p: Path, now: int): Pending {
    if !c.tracked(p) then pd else pd.Put(EnqueueDelete(pd.queue, p, now))
  }

  function OnRename(c: Config, pd: Pending, o: Path, n: Path, now: int): Pending {
    if !c.tracked(n) then pd
    else if c.excluded(n) then pd.Put(EnqueueDelete(pd.queue, o, now))
    else pd.Put(EnqueueRename(pd.queue, o, n, now))
  }

  function OnMetadata(c: Config, pd: Pending, p: Path, now: int): Pending {
    if c.Synced(p) && c.markdown(p) then OnDebounce(pd, p, now) else pd
  }

  function OnDebounce(pd: Pending, p: Path, now: int): Pending {
    pd.(debounced := pd.debounced - {p}).Put(EnqueueUpsert(pd.queue, p, now))
  }

  // ---- reconcile -----------------------------------------------------------------

  /** A manifest entry. */
  datatype Entry = Entry(mtime: int, size: Option<nat>)

  /** The manifest lets the diff skip this file. */
  predicate Matches(f: File, e: Entry) {
    f.mtime <= e.mtime + 1000 && e.size == Some(f.size)
  }

  /** The local files the diff upserts. */
  function Outdated(locals: seq<Path>, vault: map<Path, File>, manifest: map<Path, Entry>): seq<Path>
    requires forall p :: p in locals ==> p in vault
    ensures forall p :: p in Outdated(locals, vault, manifest)
                        <==> p in locals && (p in manifest ==> !Matches(vault[p], manifest[p]))
  {
    if locals == [] then []
    else
      var p := locals[|locals| - 1];
      Outdated(locals[..|locals| - 1], vault, manifest)
      + if p in manifest && Matches(vault[p], manifest[p]) then [] else [p]
  }

  /** The remote paths the diff deletes: not local, and without a fresh tombstone. */
  function RemoteOnly(remotes: seq<Path>, locals: seq<Path>, buried: set<Path>): seq<Path>
    ensures forall p :: p in RemoteOnly(remotes, locals, buried) <==> p in remotes && p !in locals && p !in buried
  {
    if remotes == [] then []
    else
      var p := remotes[|remotes| - 1];
      RemoteOnly(remotes[..|remotes| - 1], locals, buried) + if p in locals || p in buried then [] else [p]
  }

  function EnqueueUpserts(items: seq<Item>, ps: seq<Path>, now: int): seq<Item> {
    if ps == [] then items
    else EnqueueUpsert(EnqueueUpserts(items, ps[..|ps| - 1], now), ps[|ps| - 1], now)
  }

  function EnqueueDeletes(items: seq<Item>, ps: seq<Path>, now: int): seq<Item> {
    if ps == [] then items
    else EnqueueDelete(EnqueueDeletes(items, ps[..|ps| - 1], now), ps[|ps| - 1], now)
  }

  function DiffQueue(items: seq<Item>, upserts: seq<Path>, deletes: seq<Path>, now: int): seq<Item> {
    EnqueueDeletes(EnqueueUpserts(items, upserts, now), deletes, now)
  }

  function OnDiff(pd: Pending, upserts: seq<Path>, deletes: seq<Path>, now: int): Pending {
    if upserts == [] && deletes == [] then pd else pd.Put(DiffQueue(pd.queue, upserts, deletes, now))
  }

  // ---- server effects -------------------------------------------------------------

  /** What the server did with one operation: carried it out (for a rename, `note` is what the new
      path holds afterwards; for an upsert, the stored note), left everything alone, or anything at
      all on the operation's own paths. */
  datatype Effect = Done(note: Option<Note>) | Skipped | Partial(a: Option<Note>, b: Option<Note>)

  function Store(server: map<Path, Note>, p: Path, note: Option<Note>): map<Path, Note> {
    match note
    case Some(x) => server[p := x]
    case None => server - {p}
  }

  function HardEffect(server: map<Path, Note>, op: Op, e: Effect): map<Path, Note>
    requires !op.Upsert?
  {
    match op
    case Rename(o, n) =>
      (match e
       case Done(note) => Store(Store(server, o, None), n, note)
       case Skipped => server
       case Partial(a, b) => Store(Store(server, o, a), n, b))
    case Delete(p) =>
      match e
      case Partial(a, _) => Store(server, p, a)
      case _ => Store(server, p, None)
  }

  function HardEffects(server: map<Path, Note>, items: seq<Item>, effects: seq<Effect>): map<Path, Note>
    requires |items| == |effects| && forall x :: x in items ==> !x.op.Upsert?
  {
    if items == [] then server
    else
      var n := |items| - 1;
      assert items[n] in items;
      HardEffect(HardEffects(server, items[..n], effects[..n]), items[n].op, effects[n])
  }

  function SyncEffect(server: map<Path, Note>, effects: map<Path, Effect>): map<Path, Note> {
    map p | p in server.Keys + effects.Keys && AfterSync(server, effects, p).Some?
        :: AfterSync(server, effects, p).value
  }

  function AfterSync(server: map<Path, Note>, effects: map<Path, Effect>, p: Path): Option<Note> {
    var before := if p in server then Some(server[p]) else None;
    if p !in effects then before
    else
      match effects[p]
      case Done(note) => note
      case Skipped => before
      case Partial(a, _) => a
  }

  /** An operation that the server answered without reporting an error took full effect or none. */
  ghost predicate Plausible(items: seq<Item>, effects: seq<Effect>, reply: Reply) {
    |items| == |effects|
    && (reply.Answered? ==> forall i :: 0 <= i < |items| && items[i].op !in reply.failed ==> !effects[i].Partial?)
  }

  /** The server touches only the notes it was sent; what it does to them is left open. */
  ghost predicate PlausibleSync(payloads: map<Path, File>, effects: map<Path, Effect>) {
    effects.Keys == payloads.Keys
  }

  /** The note that was sent is stored. */
  predicate StoredAsSent(e: Effect, f: File) {
    e.Done? && e.note.Some? && e.note.value.content == f.content
  }

  // ---- the state --------------------------------------------------------------------

  /** A drain's batch, in the middle of its rename request, its delete request, or its upserts. */
  datatype Flight =
    | Idle
    | Renaming(batch: seq<Item>)
    | Deleting(batch: seq<Item>, lists: Lists)
    | Building(batch: seq<Item>, lists: Lists, outcomes: seq<Read>, payloads: map<Path, File>)

  /** `stale` is a history variable: the paths that some named failure may have left different on
      the server with nothing pending for them. */
  datatype State = State(vault: map<Path, File>, server: map<Path, Note>, pd: Pending, flight: Flight, stale: set<Path>)

  datatype Event =
    // the vault
    | Create(path: Path, file: File)
    | Modify(path: Path, file: File)
    | Remove(path: Path)
    | Move(oldPath: Path, newPath: Path)
    | MetadataChanged(path: Path)
    | DebounceFires(path: Path)
    | Unseen(vault: map<Path, File>)
    // the drain loop
    | Take
    | RenameReply(reply: Reply, effects: seq<Effect>)
    | DeleteReply(reply: Reply, effects: seq<Effect>)
    | ReadNext(outcome: Read)
    | SyncReply(reply: Reply, synced: map<Path, Effect>)
    // reconcile and restart
    | Reconcile(locals: seq<Path>, remotes: seq<Path>, manifest: map<Path, Entry>, buried: set<Path>)
    | Restart(server: map<Path, Note>)

  /** What the server should hold at `p`. */
  function Want(c: Config, vault: map<Path, File>, p: Path): Option<Content> {
    if p in vault && c.Synced(p) then Some(vault[p].content) else None
  }

  /** What the upsert phase puts back. */
  function UpsertsBack(st: State, reply: Reply): seq<Item>
    requires st.flight.Building? && |st.flight.outcomes| == |OfKind(st.flight.batch, Upserts)|
  {
    UpsertPhase(NoLists, OfKind(st.flight.batch, Upserts), st.flight.outcomes, reply).lists.retry
  }

  function Copy(server: map<Path, Note>, p: Path): Option<Content> {
    if p in server then Some(server[p].content) else None
  }

  /** The paths whose rows the request under way may be changing. */
  function RequestPaths(f: Flight): set<Path> {
    match f
    case Idle => {}
    case Renaming(batch) => Touched(OfKind(batch, Renames))
    case Deleting(batch, _) => Touched(OfKind(batch, Deletes))
    case Building(_, _, _, payloads) => payloads.Keys
  }

  ghost predicate Enabled(c: Config, st: State, ev: Event) {
    match ev
    case Create(p, _) => p !in st.vault
    case Modify(p, _) => p in st.vault
    case Remove(p) => p in st.vault
    case Move(o, n) => o in st.vault && n !in st.vault
    case MetadataChanged(_) => true
    case DebounceFires(p) => p in st.pd.debounced
    case Unseen(_) => true
    case Take => st.flight.Idle? && st.pd.queue != [] && c.batchSize > 0
    case RenameReply(reply, effects) => st.flight.Renaming?
        && Plausible(OfKind(st.flight.batch, Renames), effects, reply)
    case DeleteReply(reply, effects) => st.flight.Deleting?
        && Plausible(OfKind(st.flight.batch, Deletes), effects, reply)
    case ReadNext(outcome) =>
      && st.flight.Building?
      && |st.flight.outcomes| < |OfKind(st.flight.batch, Upserts)|
      && var op := OfKind(st.flight.batch, Upserts)[|st.flight.outcomes|].op;
         op.Upsert? && (outcome == Vanished <==> op.path !in st.vault)
    case SyncReply(reply, synced) =>
      && st.flight.Building?
      && |st.flight.outcomes| == |OfKind(st.flight.batch, Upserts)|
      && PlausibleSync(st.flight.payloads, synced)
    case Reconcile(locals, remotes, manifest, _) =>
      && (forall p :: p in locals <==> p in st.vault && c.Synced(p))
      && (forall p :: p in remotes <==> p in manifest)
    case Restart(server) => forall p :: p !in RequestPaths(st.flight) ==> Copy(server, p) == Copy(st.server, p)
  }

  // ---- when a path goes stale ----------------------------------------------------------

  function Differing(a: map<Path, File>, b: map<Path, File>): set<Path> {
    set p | p in a.Keys + b.Keys && !(p in a && p in b && a[p].content == b[p].content)
  }

  /** The items whose last attempt this was. */
  function Exhausted(items: seq<Item>, max: nat): set<Path> {
    set i, p | 0 <= i < |items| && items[i].attempt >= max && p in OpPaths(items[i].op) :: p
  }

  /** Renames that were acknowledged although the server left both paths alone. */
  function SkippedRenames(items: seq<Item>, effects: seq<Effect>, reply: Reply): set<Path>
    requires |items| == |effects|
  {
    set i | 0 <= i < |items| && items[i].op.Rename? && effects[i] == Skipped
            && reply.Answered? && items[i].op !in reply.failed :: items[i].op.oldPath
  }

  /** Notes that were acknowledged although the server did not store what it was sent last. */
  function UnstoredNotes(payloads: map<Path, File>, effects: map<Path, Effect>, reply: Reply): set<Path> {
    set p | p in effects && reply.Answered? && Upsert(p) !in reply.failed
            && !(p in payloads && StoredAsSent(effects[p], payloads[p]))
  }

  /** Paths whose deletes or renames were refused for good. */
  function Refused(items: seq<Item>, reply: Reply): set<Path> {
    if reply.Raised? && Classify(reply.error) == Drop then Touched(items) else {}
  }

  /** The last of these deletes and renames brings the path back instead of removing it. */
  predicate Restores(items: seq<Item>, p: Path) {
    Last(items, p, true).Some? && !Removes(Last(items, p, true).value, p)
  }

  /** Paths that a rename put back by this reply brings back. */
  function TornByRenames(st: State, reply: Reply): set<Path>
    requires st.flight.Renaming?
  {
    var back := Returned(OfKind(st.flight.batch, Renames), reply);
    set p | p in Touched(back) && Restores(back, p)
  }

  /** Paths whose delete was acknowledged while a rename onto them, put back before, is still to run. */
  function TornByDeletes(st: State, reply: Reply): set<Path>
    requires st.flight.Deleting?
  {
    var deletes := OfKind(st.flight.batch, Deletes);
    set p | p in Touched(deletes) && p !in Touched(Returned(deletes, reply)) && Restores(st.flight.lists.retry, p)
  }

  /** Wanted paths of which a delete or rename was put back and the upsert was not; if an edit is debounced, only a
      rename onto the path counts. */
  function TornByNotes(c: Config, st: State, reply: Reply): set<Path>
    requires st.flight.Building? && |st.flight.outcomes| == |OfKind(st.flight.batch, Upserts)|
  {
    set p | p in Touched(st.flight.lists.retry) && Want(c, st.vault, p).Some? && p !in Touched(UpsertsBack(st, reply))
            && (p in st.pd.debounced ==> Restores(st.flight.lists.retry, p))
  }

  /** Everything that the note request may lose. */
  function LostByNotes(c: Config, st: State, synced: map<Path, Effect>, reply: Reply): set<Path>
    requires st.flight.Building? && |st.flight.outcomes| == |OfKind(st.flight.batch, Upserts)|
  {
    UnstoredNotes(st.flight.payloads, synced, reply) + TornByNotes(c, st, reply)
    + Touched(UpsertPhase(NoLists, OfKind(st.flight.batch, Upserts), st.flight.outcomes, reply).lists.dropped)
  }

  /** A failure counts only for paths that nothing later decides: no operation of a wanted path, no delete or rename
      of an unwanted one. */
  function Undecided(c: Config, vault: map<Path, File>, later: seq<Item>, paths: set<Path>): set<Path> {
    set p | p in paths && Last(later, p, Want(c, vault, p).None?).None?
  }

  // ---- steps ------------------------------------------------------------------------------

  /** The drain loop after processBatch returned. */
  function Finish(c: Config, st: State, batch: seq<Item>, l: Lists, server: map<Path, Note>, lost: set<Path>): State {
    var queue := PutBack(batch, l, c.maxAttempts) + st.pd.queue;
    State(st.vault, server, st.pd.Put(queue), Idle,
          st.stale + Undecided(c, st.vault, st.pd.queue, lost + Exhausted(ToRetry(batch, l), c.maxAttempts)))
  }

  function AfterRequest(c: Config, st: State, res: BatchResult, server: map<Path, Note>, lost: set<Path>,
        rest: seq<Item>, next: Flight): State
    requires !st.flight.Idle?
  {
    if res.stop then Finish(c, st, st.flight.batch, res.lists, server, {})
    else State(st.vault, server, st.pd, next, st.stale + Undecided(c, st.vault, rest + st.pd.queue, lost))
  }

  function VaultAfter(vault: map<Path, File>, ev: Event): map<Path, File> {
    match ev
    case Create(p, f) => vault[p := f]
    case Modify(p, f) => vault[p := f]
    case Remove(p) => vault - {p}
    case Move(o, n) => if o in vault then (vault - {o})[n := vault[o]] else vault
    case Unseen(v) => v
    case _ => vault
  }

  function PendingAfter(c: Config, pd: Pending, ev: Event, now: int): Pending {
    match ev
    case Create(p, _) => OnEdit(c, pd, p, now)
    case Modify(p, _) => OnEdit(c, pd, p, now)
    case Remove(p) => OnDelete(c, pd, p, now)
    case Move(o, n) => OnRename(c, pd, o, n, now)
    case MetadataChanged(p) => OnMetadata(c, pd, p, now)
    case DebounceFires(p) => OnDebounce(pd, p, now)
    case _ => pd
  }

  /** Vault changes the plugin does not see: those made behind its back, and the rename of a synced
      file to a name it does not track. */
  function Missed(c: Config, vault: map<Path, File>, ev: Event): set<Path> {
    match ev
    case Unseen(v) => Differing(vault, v)
    case Move(o, n) => if c.Synced(o) && !c.tracked(n) then {o} else {}
    case _ => {}
  }

  /** The paths for which the handler enqueues what the changed vault asks for. */
  function Renewed(c: Config, vault: map<Path, File>, ev: Event): set<Path> {
    match ev
    case Create(p, _) => if c.Synced(p) && !c.markdown(p) then {p} else {}
    case Modify(p, _) => if c.Synced(p) && !c.markdown(p) then {p} else {}
    case Remove(p) => if c.tracked(p) then {p} else {}
    case Move(o, n) => if !c.tracked(n) then {} else if c.excluded(n) then {o} else {o, n}
    case MetadataChanged(p) => if p in vault && c.Synced(p) && c.markdown(p) then {p} else {}
    case DebounceFires(p) => if p in vault && c.Synced(p) then {p} else {}
    case _ => {}
  }

  predicate IsVaultEvent(ev: Event) {
    ev.Create? || ev.Modify? || ev.Remove? || ev.Move? || ev.MetadataChanged? || ev.DebounceFires? || ev.Unseen?
  }

  ghost function Next(c: Config, st: State, ev: Event, now: int): State
    requires Enabled(c, st, ev)
  {
    match ev
    case Take =>
      st.(pd := st.pd.(queue := st.pd.queue[Min(c.batchSize, |st.pd.queue|)..]),
          flight := Renaming(Taken(st.pd.queue, c.batchSize)))
    case RenameReply(reply, effects) =>
      var renames := OfKind(st.flight.batch, Renames);
      KindItems(st.flight.batch, Renames);
      var res := RequestPhase(NoLists, renames, reply);
      AfterRequest(c, st, res, HardEffects(st.server, renames, effects),
                   SkippedRenames(renames, effects, reply) + Refused(renames, reply) + TornByRenames(st, reply),
                   NotOfKind(st.flight.batch, Renames), Deleting(st.flight.batch, res.lists))
    case DeleteReply(reply, effects) =>
      var deletes := OfKind(st.flight.batch, Deletes);
      KindItems(st.flight.batch, Deletes);
      var res := RequestPhase(st.flight.lists, deletes, reply);
      AfterRequest(c, st, res, HardEffects(st.server, deletes, effects),
                   Refused(deletes, reply) + TornByDeletes(st, reply), OfKind(st.flight.batch, Upserts),
                   Building(st.flight.batch, res.lists, [], map[]))
    case ReadNext(outcome) =>
      var p := OfKind(st.flight.batch, Upserts)[|st.flight.outcomes|].op.path;
      st.(flight := st.flight.(outcomes := st.flight.outcomes + [outcome],
                               payloads := if outcome == Built then st.flight.payloads[p := st.vault[p]]
                                   else st.flight.payloads))
    case SyncReply(reply, synced) =>
      var res := UpsertPhase(st.flight.lists, OfKind(st.flight.batch, Upserts), st.flight.outcomes, reply);
      Finish(c, st, st.flight.batch, res.lists, SyncEffect(st.server, synced),
             LostByNotes(c, st, synced, reply))
    case Reconcile(locals, remotes, manifest, buried) =>
      var upserts := Outdated(locals, st.vault, manifest);
      var deletes := RemoteOnly(remotes, locals, buried);
      st.(pd := OnDiff(st.pd, upserts, deletes, now), stale := st.stale - (set p | p in upserts + deletes))
    case Restart(server) =>
      var edits := set p | p in st.pd.debounced && Want(c, st.vault, p).Some?
                           && Last(st.pd.saved, p, false) != Some(Upsert(p));
      var lost := if !st.flight.Idle? && st.pd.saved == st.pd.queue then Touched(st.flight.batch) else {};
      State(st.vault, server, Pending({}, st.pd.saved, st.pd.saved), Idle,
            st.stale + edits + Undecided(c, st.vault, st.pd.saved, lost))
    case _ =>
      st.(vault := VaultAfter(st.vault, ev), pd := PendingAfter(c, st.pd, ev, now),
          stale := st.stale - Renewed(c, st.vault, ev) + Missed(c, st.vault, ev))
  }
}
