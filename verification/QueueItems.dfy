/** The upload queue's items, their keys, and the three enqueue operations as
    functions on the list of items (obsidian/src/types.ts, obsidian/src/queue.ts). */
module QueueItems {
  import opened Common

  type Path = string

  datatype Op =
    | Upsert(path: Path)
    | Delete(path: Path)
    | Rename(oldPath: Path, newPath: Path)

  /** A queued operation; `attempt` counts the deliveries that failed so far. */
  datatype Item = Item(op: Op, enqueuedAt: int, attempt: nat)

  // ---- keys ---------------------------------------------------------------

  function ItemKey(op: Op): string {
    match op
    case Rename(o, n) => "rename:" + o + "=>" + n
    case Upsert(p) => "upsert:" + p
    case Delete(p) => "delete:" + p
  }

  ghost predicate HasArrow(s: string) {
    exists i :: 0 <= i < |s| - 1 && s[i] == '=' && s[i + 1] == '>'
  }

  /** Operations other than renames have a key of their own. */
  lemma PlainKeyIsUnique(op: Op, other: Op)
    requires !op.Rename?
    ensures ItemKey(op) == ItemKey(other) ==> op == other
  {
    if ItemKey(op) == ItemKey(other) {
      assert ItemKey(op)[0] == ItemKey(other)[0];
      assert ItemKey(op)[7..] == op.path;
      assert ItemKey(other)[7..] == other.path;
    }
  }

  /** If a joined string splits at two different arrows, one of the parts contains an arrow. */
  lemma SecondArrow(o: Path, n: Path, o': Path, n': Path)
    requires o + "=>" + n == o' + "=>" + n' && |o| != |o'|
    ensures HasArrow(o) || HasArrow(n)
  {
    var s := o + "=>" + n;
    assert s == o' + "=>" + n';
    assert s[|o'|] == '=' && s[|o'| + 1] == '>';
    assert s[|o|] == '=' && s[|o| + 1] == '>';
    if |o'| + 1 < |o| {
      assert o[|o'|] == s[|o'|] && o[|o'| + 1] == s[|o'| + 1];
    } else if |o'| > |o| + 1 {
      var k := |o'| - |o| - 2;
      assert n[k] == s[|o'|] && n[k + 1] == s[|o'| + 1];
    } else {
      assert false;
    }
  }

  lemma KeyText(op: Op)
    requires op.Rename?
    ensures ItemKey(op) == "rename:" + (op.oldPath + "=>" + op.newPath)
    ensures ItemKey(op)[7..] == op.oldPath + "=>" + op.newPath
  {}

  /** The same text, split at its first or at its second arrow. */
  lemma TwoSplits(a: Path, b: Path, c: Path)
    ensures ItemKey(Rename(a, b + "=>" + c)) == ItemKey(Rename(a + "=>" + b, c))
  {
    KeyText(Rename(a, b + "=>" + c));
    KeyText(Rename(a + "=>" + b, c));
    assert a + "=>" + (b + "=>" + c) == (a + "=>" + b) + "=>" + c;
  }

  /** A path with an arrow in it, cut there. */
  lemma CutAtArrow(s: string) returns (a: string, b: string)
    requires HasArrow(s)
    ensures s == a + "=>" + b
  {
    var i :| 0 <= i < |s| - 1 && s[i] == '=' && s[i + 1] == '>';
    a, b := s[..i], s[i + 2..];
  }

  /** The rename that shares its key with one whose paths contain an arrow. */
  lemma KeyCollision(op: Op) returns (other: Op)
    requires op.Rename? && (HasArrow(op.oldPath) || HasArrow(op.newPath))
    ensures other != op && ItemKey(other) == ItemKey(op)
  {
    if HasArrow(op.oldPath) {
      var a, b := CutAtArrow(op.oldPath);
      TwoSplits(a, b, op.newPath);
      other := Rename(a, b + "=>" + op.newPath);
      assert |other.oldPath| != |op.oldPath|;
    } else {
      var a, b := CutAtArrow(op.newPath);
      TwoSplits(op.oldPath, a, b);
      other := Rename(op.oldPath + "=>" + a, b);
      assert |other.oldPath| != |op.oldPath|;
    }
  }

  lemma RenameKeyIsUnique(op: Op, other: Op)
    requires op.Rename? && !HasArrow(op.oldPath) && !HasArrow(op.newPath)
    requires ItemKey(other) == ItemKey(op)
    ensures other == op
  {
    if !other.Rename? {
      PlainKeyIsUnique(other, op);
    } else {
      KeyText(op);
      KeyText(other);
      var s := op.oldPath + "=>" + op.newPath;
      assert s == other.oldPath + "=>" + other.newPath;
      if |op.oldPath| != |other.oldPath| {
        SecondArrow(op.oldPath, op.newPath, other.oldPath, other.newPath);
      }
      assert s[..|op.oldPath|] == op.oldPath && s[..|other.oldPath|] == other.oldPath;
      assert s[|op.oldPath| + 2..] == op.newPath && s[|other.oldPath| + 2..] == other.newPath;
    }
  }

  /** Keys are injective exactly off the renames with an arrow in one of their paths: for each of
      those another rename has the same key. */
  lemma KeyIsUniqueIff(op: Op)
    ensures (forall other :: ItemKey(other) == ItemKey(op) ==> other == op)
            <==> !(op.Rename? && (HasArrow(op.oldPath) || HasArrow(op.newPath)))
  {
    if op.Rename? && (HasArrow(op.oldPath) || HasArrow(op.newPath)) {
      var other := KeyCollision(op);
    } else {
      forall other | ItemKey(other) == ItemKey(op) ensures other == op {
        if op.Rename? {
          RenameKeyIsUnique(op, other);
        } else {
          PlainKeyIsUnique(op, other);
        }
      }
    }
  }

  // ---- filtering and looking back ------------------------------------------

  /** The items whose operation passes `keep`, in order. */
  function Select(items: seq<Item>, keep: Op -> bool): seq<Item> {
    if items == [] then []
    else
      var rest := Select(items[..|items| - 1], keep);
      if keep(items[|items| - 1].op) then rest + [items[|items| - 1]] else rest
  }

  function Without(items: seq<Item>, ops: set<Op>): seq<Item> {
    Select(items, op => op !in ops)
  }

  function EnqueueUpsert(items: seq<Item>, p: Path, now: int): seq<Item> {
    Without(items, {Upsert(p)}) + [Item(Upsert(p), now, 0)]
  }

  function EnqueueDelete(items: seq<Item>, p: Path, now: int): seq<Item> {
    Without(items, {Upsert(p), Delete(p)}) + [Item(Delete(p), now, 0)]
  }

  function EnqueueRename(items: seq<Item>, o: Path, n: Path, now: int): seq<Item> {
    Without(items, {Upsert(o), Upsert(n), Rename(o, n)})
    + [Item(Rename(o, n), now, 0), Item(Upsert(n), now, 0)]
  }

  function OpPaths(op: Op): set<Path> {
    match op
    case Upsert(p) => {p}
    case Delete(p) => {p}
    case Rename(o, n) => {o, n}
  }

  /** Does `op` touch `p`? With `hard`, upserts are ignored. */
  predicate Touches(op: Op, p: Path, hard: bool) {
    p in OpPaths(op) && (hard ==> !op.Upsert?)
  }

  /** The operation removes `p` from the server. */
  predicate Removes(op: Op, p: Path) {
    match op
    case Upsert(_) => false
    case Delete(q) => q == p
    case Rename(o, n) => o == p && n != p
  }

  /** The last operation of the list that touches `p`. */
  function Last(items: seq<Item>, p: Path, hard: bool): Option<Op> {
    if items == [] then None
    else if Touches(items[|items| - 1].op, p, hard) then Some(items[|items| - 1].op)
    else Last(items[..|items| - 1], p, hard)
  }

  function Touched(items: seq<Item>): set<Path> {
    set i, p | 0 <= i < |items| && p in OpPaths(items[i].op) :: p
  }

  lemma {:induction false} LastConcat(a: seq<Item>, b: seq<Item>, p: Path, hard: bool)
    ensures Last(a + b, p, hard) == if Last(b, p, hard).Some? then Last(b, p, hard) else Last(a, p, hard)
  {
    if b == [] {
      assert a + b == a;
    } else {
      assert (a + b)[..|a + b| - 1] == a + b[..|b| - 1];
      LastConcat(a, b[..|b| - 1], p, hard);
    }
  }

  /** `Last` is the touching operation of greatest index, and absent only when there is none. */
  lemma {:induction false} LastAt(items: seq<Item>, p: Path, hard: bool) returns (k: int)
    ensures Last(items, p, hard).None? ==> forall i :: 0 <= i < |items| ==> !Touches(items[i].op, p, hard)
    ensures Last(items, p, hard).Some? ==>
              0 <= k < |items| && items[k].op == Last(items, p, hard).value && Touches(items[k].op, p, hard)
              && forall i :: k < i < |items| ==> !Touches(items[i].op, p, hard)
  {
    k := -1;
    if items != [] {
      if Touches(items[|items| - 1].op, p, hard) {
        k := |items| - 1;
      } else {
        k := LastAt(items[..|items| - 1], p, hard);
      }
    }
  }

  lemma {:induction false} LastNone(items: seq<Item>, p: Path, hard: bool)
    ensures Last(items, p, hard).None? <==> forall i :: 0 <= i < |items| ==> !Touches(items[i].op, p, hard)
  {
    var k := LastAt(items, p, hard);
  }

  lemma {:induction false} LastUntouched(items: seq<Item>, p: Path, hard: bool)
    requires p !in Touched(items)
    ensures Last(items, p, hard).None?
  {
    LastNone(items, p, hard);
  }

  lemma {:induction false} LastAppend(items: seq<Item>, it: Item, p: Path, hard: bool)
    ensures Last(items + [it], p, hard) == if Touches(it.op, p, hard) then Some(it.op) else Last(items, p, hard)
  {
    assert (items + [it])[..|items|] == items;
  }

  /** Filtering that keeps the operations touching `p` leaves its last operation alone. */
  lemma {:induction false} LastSelect(items: seq<Item>, keep: Op -> bool, p: Path, hard: bool)
    requires forall x :: x in items && Touches(x.op, p, hard) ==> keep(x.op)
    ensures Last(Select(items, keep), p, hard) == Last(items, p, hard)
  {
    if items != [] {
      var init, it := items[..|items| - 1], items[|items| - 1];
      LastSelect(init, keep, p, hard);
      if keep(it.op) {
        LastAppend(Select(init, keep), it, p, hard);
      }
    }
  }

  lemma {:induction false} SelectItems(items: seq<Item>, keep: Op -> bool)
    ensures forall x :: x in Select(items, keep) <==> x in items && keep(x.op)
  {
    if items != [] {
      var init, it := items[..|items| - 1], items[|items| - 1];
      SelectItems(init, keep);
      assert items == init + [it];
    }
  }

  lemma {:induction false} LastWithout(items: seq<Item>, ops: set<Op>, p: Path, hard: bool)
    requires forall op :: op in ops ==> !Touches(op, p, hard)
    ensures Last(Without(items, ops), p, hard) == Last(items, p, hard)
  {
    LastSelect(items, op => op !in ops, p, hard);
  }

  lemma WithoutItems(items: seq<Item>, ops: set<Op>)
    ensures forall x :: x in Without(items, ops) <==> x in items && x.op !in ops
  {
    SelectItems(items, op => op !in ops);
  }

  /** Two filters that agree on the list's items select the same sublist. */
  lemma {:induction false} SelectAgree(items: seq<Item>, keep: Op -> bool, keep': Op -> bool)
    requires forall x :: x in items ==> keep(x.op) == keep'(x.op)
    ensures Select(items, keep) == Select(items, keep')
  {
    if items != [] {
      assert items[|items| - 1] in items;
      SelectAgree(items[..|items| - 1], keep, keep');
    }
  }

  // ---- what an enqueue does to each path -------------------------------------

  /** An upsert becomes its path's last operation and disturbs nothing else; the deletes and
      renames that touch the path stay as they were. */
  lemma {:induction false} EnqueueUpsertEffect(items: seq<Item>, p: Path, now: int, q: Path)
    ensures q != p ==> Last(EnqueueUpsert(items, p, now), q, false) == Last(items, q, false)
    ensures Last(EnqueueUpsert(items, p, now), q, true) == Last(items, q, true)
    ensures Last(EnqueueUpsert(items, p, now), p, false) == Some(Upsert(p))
  {
    var kept := Without(items, {Upsert(p)});
    if q != p {
      LastWithout(items, {Upsert(p)}, q, false);
    }
    LastWithout(items, {Upsert(p)}, q, true);
    LastAppend(kept, Item(Upsert(p), now, 0), q, false);
    LastAppend(kept, Item(Upsert(p), now, 0), q, true);
    LastAppend(kept, Item(Upsert(p), now, 0), p, false);
  }

  /** A delete becomes its path's last operation and leaves no pending upsert of that path. */
  lemma {:induction false} EnqueueDeleteEffect(items: seq<Item>, p: Path, now: int, q: Path, hard: bool)
    ensures Last(EnqueueDelete(items, p, now), q, hard) == if q == p then Some(Delete(p)) else Last(items, q, hard)
    ensures forall x :: x in EnqueueDelete(items, p, now) ==> x.op != Upsert(p)
  {
    var kept := Without(items, {Upsert(p), Delete(p)});
    WithoutItems(items, {Upsert(p), Delete(p)});
    LastAppend(kept, Item(Delete(p), now, 0), q, hard);
    if q != p {
      LastWithout(items, {Upsert(p), Delete(p)}, q, hard);
    }
  }

  /** A rename becomes the old path's last operation and the new path's last hard operation, its
      paired upsert the new path's last one. */
  lemma {:induction false} EnqueueRenameEffect(items: seq<Item>, o: Path, n: Path, now: int, q: Path, hard: bool)
    requires o != n
    ensures Last(EnqueueRename(items, o, n, now), q, hard)
            == if q == n && !hard then Some(Upsert(n))
               else if q == o || q == n then Some(Rename(o, n))
               else Last(items, q, hard)
  {
    var ops := {Upsert(o), Upsert(n), Rename(o, n)};
    var kept := Without(items, ops);
    var r, u := Item(Rename(o, n), now, 0), Item(Upsert(n), now, 0);
    assert kept + [r, u] == kept + [r] + [u];
    LastAppend(kept + [r], u, q, hard);
    LastAppend(kept, r, q, hard);
    if q != o && q != n {
      LastWithout(items, ops, q, hard);
    }
  }

  // ---- what an enqueue leaves of the list --------------------------------------

  /** `at` lists, in increasing order, the positions of `items` whose operation is not among `ops`. */
  ghost predicate Positions(items: seq<Item>, ops: set<Op>, at: seq<nat>) {
    && (forall j :: 0 <= j < |at| ==> at[j] < |items|)
    && (forall j, k :: 0 <= j < k < |at| ==> at[j] < at[k])
    && (forall i :: 0 <= i < |items| ==> (i in at <==> items[i].op !in ops))
  }

  /** `after` is `before` without the superseded operations `ops`, every other item in its place and unchanged,
      followed by the new items. */
  ghost predicate Supersedes(before: seq<Item>, after: seq<Item>, ops: set<Op>, added: seq<Item>) {
    exists at: seq<nat> ::
      && Positions(before, ops, at) && |after| == |at| + |added|
      && (forall j :: 0 <= j < |at| ==> after[j] == before[at[j]])
      && (forall j :: 0 <= j < |added| ==> after[|at| + j] == added[j])
  }

  lemma OnePositionMore(items: seq<Item>, ops: set<Op>, before: seq<nat>)
    requires items != [] && Positions(items[..|items| - 1], ops, before)
    ensures Positions(items, ops, if items[|items| - 1].op !in ops then before + [|items| - 1] else before)
  {
    var n := |items| - 1;
    var at := if items[n].op !in ops then before + [n] else before;
    forall i | 0 <= i < |items| ensures i in at <==> items[i].op !in ops {
      if i < n {
        assert items[..n][i] == items[i];
        assert i in before <==> items[..n][i].op !in ops;
      } else {
        assert n !in before;
      }
    }
  }

  lemma {:induction false} WithoutPositions(items: seq<Item>, ops: set<Op>) returns (at: seq<nat>)
    ensures Positions(items, ops, at) && |at| == |Without(items, ops)|
    ensures forall j :: 0 <= j < |at| ==> Without(items, ops)[j] == items[at[j]]
  {
    if items == [] {
      at := [];
    } else {
      var n := |items| - 1;
      var before := WithoutPositions(items[..n], ops);
      at := if items[n].op !in ops then before + [n] else before;
      OnePositionMore(items, ops, before);
    }
  }

  lemma AppendSupersedes(items: seq<Item>, ops: set<Op>, added: seq<Item>)
    ensures Supersedes(items, Without(items, ops) + added, ops, added)
    ensures forall i :: 0 <= i < |Without(items, ops)| ==> (Without(items, ops) + added)[i].op !in ops
  {
    var kept := Without(items, ops);
    var at := WithoutPositions(items, ops);
    assert forall j :: 0 <= j < |added| ==> (kept + added)[|at| + j] == added[j];
    forall i | 0 <= i < |kept| ensures (kept + added)[i].op !in ops {
      assert at[i] in at;
    }
  }

  /** Edits of one path coalesce: afterwards its upsert stands once, at the end, with the time of the last edit and
      a fresh count of attempts; everything else stays as and where it was. */
  lemma UpsertCoalesces(items: seq<Item>, p: Path, now: int)
    ensures var r := EnqueueUpsert(items, p, now);
            && Supersedes(items, r, {Upsert(p)}, [Item(Upsert(p), now, 0)])
            && r[|r| - 1] == Item(Upsert(p), now, 0)
            && forall i :: 0 <= i < |r| - 1 ==> r[i].op != Upsert(p)
  {
    AppendSupersedes(items, {Upsert(p)}, [Item(Upsert(p), now, 0)]);
  }

  /** A delete takes the place of the path's upsert and of its earlier delete. */
  lemma DeleteCoalesces(items: seq<Item>, p: Path, now: int)
    ensures var r := EnqueueDelete(items, p, now);
            && Supersedes(items, r, {Upsert(p), Delete(p)}, [Item(Delete(p), now, 0)])
            && r[|r| - 1] == Item(Delete(p), now, 0)
            && forall i :: 0 <= i < |r| - 1 ==> r[i].op != Upsert(p) && r[i].op != Delete(p)
  {
    AppendSupersedes(items, {Upsert(p), Delete(p)}, [Item(Delete(p), now, 0)]);
  }

  /** A rename takes the place of the same rename and of both paths' upserts, and brings an upsert of its own. */
  lemma RenameCoalesces(items: seq<Item>, o: Path, n: Path, now: int)
    ensures var r, ops := EnqueueRename(items, o, n, now), {Upsert(o), Upsert(n), Rename(o, n)};
            && Supersedes(items, r, ops, [Item(Rename(o, n), now, 0), Item(Upsert(n), now, 0)])
            && |r| >= 2 && r[|r| - 2..] == [Item(Rename(o, n), now, 0), Item(Upsert(n), now, 0)]
            && forall i :: 0 <= i < |r| - 2 ==> r[i].op !in ops
  {
    AppendSupersedes(items, {Upsert(o), Upsert(n), Rename(o, n)},
      [Item(Rename(o, n), now, 0), Item(Upsert(n), now, 0)]);
  }
}
