/** The items of a player as database rows (src/iologindata.cpp `saveItems`, `loadItems`, `loadPlayer`).

  The writer walks the forest breadth first: every item becomes a row with the sid of its
  container as pid, and sids are handed out in the order of writing.  The reader creates every
  item and then goes through the rows from the highest sid down, pushing each item to the front
  of its container.  `RowRoundTrip` shows that this restores the forest. */
module RowCodec {
  import opened Wrappers
  import opened PropStreams
  import opened ItemCodec
  import opened MapItemCodec
  import Forest = ItemForest

  datatype Row = Row(pid: int, sid: int, itemtype: nat, count: nat, attributes: bytes)

  type Placed = (int, Tree)

  const FIRST_SID := 101

  function RowOf(types: Types, pid: int, sid: int, x: ItemData): Row {
    Row(pid, sid, x.id, SubType(types, x), Serialized(types, x))
  }

  function Kids(t: Tree): seq<Tree> {
    if t.Box? then t.kids else []
  }

  function Tagged(pid: int, kids: seq<Tree>): seq<Placed> {
    seq(|kids|, i requires 0 <= i < |kids| => (pid, kids[i]))
  }

  function TreeSize(t: Tree): (n: nat)
    ensures n > 0
    decreases t
  {
    if t.Box? then 1 + TreesSize(t.kids) else 1
  }

  function TreesSize(s: seq<Tree>): nat
    decreases s
  {
    if s == [] then 0 else TreeSize(s[0]) + TreesSize(s[1..])
  }

  function QueueSize(q: seq<Placed>): nat {
    if q == [] then 0 else TreeSize(q[0].1) + QueueSize(q[1..])
  }

  lemma {:induction false} QueueSizeSum(p: seq<Placed>, q: seq<Placed>)
    ensures QueueSize(p + q) == QueueSize(p) + QueueSize(q)
  {
    if p == [] {
      assert p + q == q;
    } else {
      assert (p + q)[1..] == p[1..] + q;
      QueueSizeSum(p[1..], q);
    }
  }

  lemma {:induction false} TaggedSize(pid: int, kids: seq<Tree>)
    ensures QueueSize(Tagged(pid, kids)) == TreesSize(kids)
  {
    if kids != [] {
      assert Tagged(pid, kids)[1..] == Tagged(pid, kids[1..]);
      TaggedSize(pid, kids[1..]);
    }
  }

  /** The rows of a breadth-first walk: the first item of the queue takes the next sid and its children
    join the end of the queue under that sid. */
  function Flattened(types: Types, queue: seq<Placed>, sid: int): seq<Row>
    decreases QueueSize(queue)
  {
    if queue == [] then [] else
      var t := queue[0].1;
      assert QueueSize(queue[1..] + Tagged(sid, Kids(t))) < QueueSize(queue) by {
        QueueSizeSum(queue[1..], Tagged(sid, Kids(t)));
        TaggedSize(sid, Kids(t));
      }
      [RowOf(types, queue[0].0, sid, t.data)] + Flattened(types, queue[1..] + Tagged(sid, Kids(t)), sid + 1)
  }

  // ---- reading rows -----------------------------------------------------------------------------

  /** The item of a row: none for an unknown type; attributes that fail to parse are kept so far as read. */
  function FromRow(types: Types, row: Row): Option<ItemData> {
    match CreateItem(types, row.itemtype, row.count)
    case None => None
    case Some(y) => Some(ReadAttributes(types, y, row.attributes).item)
  }

  /** The items whose rows name `pid`, in the order of the rows. */
  function Select<T>(rows: seq<Row>, items: seq<Option<T>>, pid: int): seq<T>
    requires |rows| == |items|
  {
    if rows == [] then [] else
      (if rows[0].pid == pid && items[0].Some? then [items[0].value] else []) + Select(rows[1..], items[1..], pid)
  }

  function TreeOf(types: Types, row: Row, kids: seq<Tree>): Option<Tree> {
    match FromRow(types, row)
    case None => None
    case Some(x) => Some(if types(row.itemtype).container then Box(x, kids) else Leaf(x))
  }

  /** The tree below each row, children in the order of their rows. */
  function Trees(types: Types, rows: seq<Row>): (r: seq<Option<Tree>>)
    ensures |r| == |rows|
  {
    if rows == [] then [] else
      var rest := Trees(types, rows[1..]);
      [TreeOf(types, rows[0], Select(rows[1..], rest, rows[0].sid))] + rest
  }

  /** The items whose rows name a carrier: an inventory slot or a depot, `low <= pid < high`. */
  function Roots<T>(rows: seq<Row>, items: seq<Option<T>>, low: int, high: int): seq<(int, T)>
    requires |rows| == |items|
  {
    if rows == [] then [] else
      (if low <= rows[0].pid < high && items[0].Some? then [(rows[0].pid, items[0].value)] else [])
      + Roots(rows[1..], items[1..], low, high)
  }

  /** A table in key order whose items lie in earlier rows or below a carrier. */
  ghost predicate Ordered(rows: seq<Row>, high: int) {
    && (forall i, j :: 0 <= i < j < |rows| ==> rows[i].sid < rows[j].sid)
    && (forall i :: 0 <= i < |rows| ==> rows[i].pid < rows[i].sid && high <= rows[i].sid)
  }

  // ---- one item ---------------------------------------------------------------------------------

  /** The persisted view of an item: what its row and attributes restore. */
  function RowData(types: Types, x: ItemData): ItemData {
    match CreateItem(types, x.id, SubType(types, x))
    case None => x
    case Some(y) => Reloaded(types, y, x)
  }

  lemma {:induction false} RowItemRoundTrip(types: Types, pid: int, sid: int, x: ItemData)
    requires types(x.id).known && Savable(x)
    ensures FromRow(types, RowOf(types, pid, sid, x)) == Some(RowData(types, x))
  {
    hide Serialized, Reloaded, SubType, Savable, ReadAttributes, Constructed, NormalId;
    var y := CreateItem(types, x.id, SubType(types, x)).value;
    AttributesRoundTrip(types, y, x, []);
    assert Serialized(types, x) + [] == Serialized(types, x);
    NothingRead(types, Reloaded(types, y, x));
  }

  lemma {:induction false} NothingRead(types: Types, y: ItemData)
    ensures ReadAttributes(types, y, []).item == y
  {
  }

  /** An item survives its row exactly when the attribute codec alone returns it unchanged: the count
    column adds nothing that the attributes lose. */
  lemma {:induction false} RowItemIsExact(types: Types, x: ItemData)
    requires types(x.id).known
    ensures RowData(types, x) == x <==> Exact(types, x)
  {
    ReloadedIsExact(types, x);
    FreshItem(types, x.id);
    hide Exact, Signed, Storable, WithEntries, Lower;
    var y := CreateItem(types, x.id, 0).value;
    var z := CreateItem(types, x.id, SubType(types, x)).value;
    if y.id == x.id {
      SameSubType(types, x);
      assert Reloaded(types, z, x) == Reloaded(types, y, x);
    } else {
      IdKept(types, y, x);
      IdKept(types, z, x);
    }
  }

  lemma {:induction false} IdKept(types: Types, y: ItemData, x: ItemData)
    ensures Reloaded(types, y, x).id == y.id
  {
    hide Signed, Storable, WithEntries, Truncate;
  }

  lemma {:induction false} SameSubType(types: Types, x: ItemData)
    requires types(x.id).known && CreateItem(types, x.id, 0).value.id == x.id
    ensures WithSubTypeOf(types, CreateItem(types, x.id, SubType(types, x)).value, x)
         == WithSubTypeOf(types, CreateItem(types, x.id, 0).value, x)
  {
    FreshItem(types, x.id);
    var it, n := types(x.id), SubType(types, x);
    if !it.container && !it.fluid && !it.stackable {
      assert it.charges != 0 ==> n == Value16(x.charges);
      hide Signed, Truncate, Value16, NormalId;
    } else {
      hide Signed, Truncate, Value16, NormalId, SubType;
    }
  }

  // ---- the walk and its inverse -----------------------------------------------------------------

  /** The persisted view of a tree. */
  function RowView(types: Types, t: Tree): Tree
    decreases t
  {
    match t
    case Leaf(x) => Leaf(RowData(types, x))
    case Box(x, kids) => Box(RowData(types, x), RowViews(types, kids))
  }

  function RowViews(types: Types, kids: seq<Tree>): (r: seq<Tree>)
    ensures |r| == |kids| && forall i :: 0 <= i < |kids| ==> r[i] == RowView(types, kids[i])
    decreases kids
  {
    if kids == [] then [] else [RowView(types, kids[0])] + RowViews(types, kids[1..])
  }

  ghost predicate SavableQueue(types: Types, queue: seq<Placed>) {
    forall i :: 0 <= i < |queue| ==> SavableTree(types, queue[i].1)
  }

  ghost predicate Under(queue: seq<Placed>, sid: int) {
    forall i :: 0 <= i < |queue| ==> queue[i].0 < sid
  }

  lemma {:induction false} NextQueue(types: Types, queue: seq<Placed>, sid: int)
    requires queue != []
    ensures SavableQueue(types, queue) ==> SavableQueue(types, queue[1..] + Tagged(sid, Kids(queue[0].1)))
    ensures Under(queue, sid) ==> Under(queue[1..] + Tagged(sid, Kids(queue[0].1)), sid + 1)
  {
    var t := queue[0].1;
    var q := queue[1..] + Tagged(sid, Kids(t));
    forall i | 0 <= i < |q|
      ensures SavableQueue(types, queue) ==> SavableTree(types, q[i].1)
      ensures Under(queue, sid) ==> q[i].0 < sid + 1
    {
      if i < |queue| - 1 {
        assert q[i] == queue[i + 1];
      } else {
        assert q[i] == (sid, Kids(t)[i - (|queue| - 1)]);
        assert q[i].1 in Kids(t);
        if SavableQueue(types, queue) { assert SavableTree(types, t); }
      }
    }
  }

  lemma {:induction false} FlattenedStep(types: Types, queue: seq<Placed>, sid: int)
    requires queue != []
    ensures var t, rows := queue[0].1, Flattened(types, queue, sid);
      var next := queue[1..] + Tagged(sid, Kids(t));
      && QueueSize(next) < QueueSize(queue)
      && rows != [] && rows[0] == RowOf(types, queue[0].0, sid, t.data)
      && rows[1..] == Flattened(types, next, sid + 1)
  {
    var t := queue[0].1;
    QueueSizeSum(queue[1..], Tagged(sid, Kids(t)));
    TaggedSize(sid, Kids(t));
  }

  /** Sids count up; the first rows are the queue's own; all later rows lie below rows of the walk, which
    precede them. */
  ghost predicate Shaped(rows: seq<Row>, queue: seq<Placed>, sid: int) {
    && |queue| <= |rows|
    && (forall i :: 0 <= i < |queue| ==> rows[i].pid == queue[i].0)
    && (forall i :: |queue| <= i < |rows| ==> rows[i].pid >= sid)
    && (forall i :: 0 <= i < |rows| ==> rows[i].sid == sid + i && rows[i].pid < rows[i].sid)
  }

  lemma {:induction false} ShapedStep(rows: seq<Row>, queue: seq<Placed>, kids: seq<Tree>, sid: int)
    requires queue != [] && Under(queue, sid) && rows != [] && rows[0].pid == queue[0].0 && rows[0].sid == sid
    requires Shaped(rows[1..], queue[1..] + Tagged(sid, kids), sid + 1)
    ensures Shaped(rows, queue, sid)
    ensures forall i :: 0 <= i < |rows| - 1 ==> (rows[1..][i].pid == sid ==> |queue| - 1 <= i < |queue| - 1 + |kids|)
  {
    var next, tail := queue[1..] + Tagged(sid, kids), rows[1..];
    forall i | 0 < i < |rows|
      ensures rows[i].sid == sid + i && rows[i].pid < rows[i].sid
      ensures i < |queue| ==> rows[i].pid == queue[i].0
      ensures i >= |queue| ==> rows[i].pid >= sid
    {
      assert rows[i] == tail[i - 1];
      if i < |queue| {
        assert next[i - 1] == queue[i];
      } else if i - 1 < |next| {
        assert next[i - 1].0 == sid;
      }
    }
    forall i | 0 <= i < |queue| - 1
      ensures tail[i].pid < sid
    {
      assert tail[i] == rows[i + 1] && rows[i + 1].pid == queue[i + 1].0;
    }
  }

  lemma {:induction false} FlattenedShape(types: Types, queue: seq<Placed>, sid: int)
    requires Under(queue, sid)
    ensures Shaped(Flattened(types, queue, sid), queue, sid)
    decreases QueueSize(queue)
  {
    if queue != [] {
      FlattenedStep(types, queue, sid);
      NextQueue(types, queue, sid);
      hide Flattened, Shaped, QueueSize, Serialized, SubType, Under, SavableQueue;
      FlattenedShape(types, queue[1..] + Tagged(sid, Kids(queue[0].1)), sid + 1);
      ShapedStep(Flattened(types, queue, sid), queue, Kids(queue[0].1), sid);
    }
  }

  /** When exactly the rows from `a` to `b` name `pid`, those are selected. */
  lemma {:induction false} FirstSelected<T>(rows: seq<Row>, items: seq<Option<T>>, pid: int)
    requires |rows| == |items|
    ensures rows == [] ==> Select(rows, items, pid) == []
    ensures rows != [] && rows[0].pid == pid && items[0].Some? ==>
      Select(rows, items, pid) == [items[0].value] + Select(rows[1..], items[1..], pid)
    ensures rows != [] && !(rows[0].pid == pid && items[0].Some?) ==>
      Select(rows, items, pid) == Select(rows[1..], items[1..], pid)
  {
  }

  lemma {:induction false} SelectRange<T>(rows: seq<Row>, items: seq<Option<T>>, pid: int, a: nat, b: nat)
    requires |rows| == |items| && a <= b <= |rows|
    requires forall i :: 0 <= i < |rows| ==> (rows[i].pid == pid <==> a <= i < b)
    requires forall i :: a <= i < b ==> items[i].Some?
    ensures |Select(rows, items, pid)| == b - a
    ensures forall k :: 0 <= k < b - a ==> Select(rows, items, pid)[k] == items[a + k].value
  {
    FirstSelected(rows, items, pid);
    hide Select;
    if rows != [] {
      var lo, hi := if a == 0 then 0 else a - 1, if b == 0 then 0 else b - 1;
      SelectRange(rows[1..], items[1..], pid, lo, hi);
    }
  }

  /** The tree below a row whose children are the rows from `a` on. */
  lemma {:induction false} BelowFirst(types: Types, t: Tree, row: Row, tail: seq<Row>, a: nat)
    requires (t.Box? <==> types(t.data.id).container) && row.itemtype == t.data.id
    requires FromRow(types, row) == Some(RowData(types, t.data))
    requires a + |Kids(t)| <= |tail|
    requires forall i :: 0 <= i < |tail| ==> (tail[i].pid == row.sid <==> a <= i < a + |Kids(t)|)
    requires forall k :: 0 <= k < |Kids(t)| ==> Trees(types, tail)[a + k] == Some(RowView(types, Kids(t)[k]))
    ensures TreeOf(types, row, Select(tail, Trees(types, tail), row.sid)) == Some(RowView(types, t))
  {
    hide FromRow, RowData, Trees, Select, SavableTree;
    var trees := Trees(types, tail);
    forall i | a <= i < a + |Kids(t)|
      ensures trees[i].Some?
    {
      assert trees[a + (i - a)] == Some(RowView(types, Kids(t)[i - a]));
    }
    SelectRange(tail, Trees(types, tail), row.sid, a, a + |Kids(t)|);
    if t.Box? {
      assert Select(tail, Trees(types, tail), row.sid) == RowViews(types, t.kids);
    }
  }

  /** Every row of the queue stands for a savable tree that its row and the rows below it restore. */
  ghost predicate Restored(types: Types, queue: seq<Placed>, trees: seq<Option<Tree>>) {
    |queue| <= |trees| && forall i :: 0 <= i < |queue| ==> trees[i] == Some(RowView(types, queue[i].1))
  }

  lemma {:induction false} TreesOfFlattened(types: Types, queue: seq<Placed>, sid: int)
    requires SavableQueue(types, queue) && Under(queue, sid)
    ensures Restored(types, queue, Trees(types, Flattened(types, queue, sid)))
    decreases QueueSize(queue)
  {
    if queue == [] { return; }
    var t := queue[0].1;
    var next := queue[1..] + Tagged(sid, Kids(t));
    assert SavableTree(types, t);
    NextQueue(types, queue, sid);
    FlattenedStep(types, queue, sid);
    FlattenedShape(types, next, sid + 1);
    RowItemRoundTrip(types, queue[0].0, sid, t.data);
    hide Flattened, QueueSize, SavableTree, Savable, Serialized, SubType, RowData, FromRow, SavableQueue, Under, Shaped,
         TreeOf, Trees, Restored;
    var rows := Flattened(types, queue, sid);
    TreesOfFlattened(types, next, sid + 1);
    ShapedStep(rows, queue, Kids(t), sid);
    RestoredStep(types, queue, sid, rows);
  }

  lemma {:induction false} TaggedAt(front: seq<Placed>, sid: int, kids: seq<Tree>)
    ensures (front + Tagged(sid, kids))[..|front|] == front
    ensures forall k :: 0 <= k < |kids| ==> (front + Tagged(sid, kids))[|front| + k] == (sid, kids[k])
  {
  }

  /** The rows of the children of the first tree stand behind the rest of the queue, and restore them. */
  lemma {:induction false} KidsRestored(types: Types, rest: seq<Placed>, sid: int, kids: seq<Tree>, tail: seq<Row>,
                                        trees: seq<Option<Tree>>)
    requires Shaped(tail, rest + Tagged(sid, kids), sid + 1) && Restored(types, rest + Tagged(sid, kids), trees)
    ensures |rest| + |kids| <= |tail| && |rest| + |kids| <= |trees|
    ensures forall i :: |rest| <= i < |rest| + |kids| ==>
      tail[i].pid == sid && trees[i] == Some(RowView(types, kids[i - |rest|]))
  {
    var next, a := rest + Tagged(sid, kids), |rest|;
    TaggedAt(rest, sid, kids);
    assert a + |kids| <= |tail| && a + |kids| <= |trees|;
    hide *;
    forall i | a <= i < a + |kids|
      ensures tail[i].pid == sid && trees[i] == Some(RowView(types, kids[i - a]))
    {
      assert next[a + (i - a)] == (sid, kids[i - a]);
      PlaceRestored(types, next, tail, trees, sid + 1, i);
    }
  }

  lemma {:induction false} TreesStep(types: Types, rows: seq<Row>)
    requires rows != []
    ensures Trees(types, rows) ==
      [TreeOf(types, rows[0], Select(rows[1..], Trees(types, rows[1..]), rows[0].sid))] + Trees(types, rows[1..])
  {
  }

  /** The first row and what lies below it restore the first tree. */
  lemma {:induction false} FirstRestored(types: Types, t: Tree, rest: seq<Placed>, row: Row, tail: seq<Row>)
    requires (t.Box? <==> types(t.data.id).container) && row.itemtype == t.data.id
    requires FromRow(types, row) == Some(RowData(types, t.data))
    requires Shaped(tail, rest + Tagged(row.sid, Kids(t)), row.sid + 1)
    requires Restored(types, rest + Tagged(row.sid, Kids(t)), Trees(types, tail))
    requires forall i :: 0 <= i < |tail| ==> (tail[i].pid == row.sid ==> |rest| <= i < |rest| + |Kids(t)|)
    ensures |rest| <= |Trees(types, tail)|
    ensures TreeOf(types, row, Select(tail, Trees(types, tail), row.sid)) == Some(RowView(types, t))
  {
    hide *;
    KidsRestored(types, rest, row.sid, Kids(t), tail, Trees(types, tail));
    BelowFirst(types, t, row, tail, |rest|);
  }

  lemma {:induction false} RestoredStep(types: Types, queue: seq<Placed>, sid: int, rows: seq<Row>)
    requires queue != [] && rows != [] && (queue[0].1.Box? <==> types(queue[0].1.data.id).container)
    requires rows[0].sid == sid && rows[0].itemtype == queue[0].1.data.id
    requires FromRow(types, rows[0]) == Some(RowData(types, queue[0].1.data))
    requires Shaped(rows[1..], queue[1..] + Tagged(sid, Kids(queue[0].1)), sid + 1)
    requires Restored(types, queue[1..] + Tagged(sid, Kids(queue[0].1)), Trees(types, rows[1..]))
    requires forall i :: 0 <= i < |rows| - 1 ==>
      (rows[1..][i].pid == sid ==> |queue| - 1 <= i < |queue| - 1 + |Kids(queue[0].1)|)
    ensures Restored(types, queue, Trees(types, rows))
  {
    var t, rest, tail := queue[0].1, queue[1..], rows[1..];
    hide *;
    var trees := Trees(types, tail);
    FirstRestored(types, t, rest, rows[0], tail);
    TaggedAt(rest, sid, Kids(t));
    TreesStep(types, rows);
    OthersRestored(types, queue, rest + Tagged(sid, Kids(t)), trees, TreeOf(types, rows[0], Select(tail, trees, sid)));
  }

  lemma {:induction false} PlaceRestored(types: Types, next: seq<Placed>, tail: seq<Row>, trees: seq<Option<Tree>>,
                                         sid: int, i: nat)
    requires i < |next| && Shaped(tail, next, sid) && Restored(types, next, trees)
    ensures i < |tail| && tail[i].pid == next[i].0 && i < |trees| && trees[i] == Some(RowView(types, next[i].1))
  {
  }

  lemma {:induction false} OthersRestored(types: Types, queue: seq<Placed>, next: seq<Placed>, trees: seq<Option<Tree>>,
                                          first: Option<Tree>)
    requires queue != [] && |next| >= |queue| - 1 && next[..|queue| - 1] == queue[1..] && Restored(types, next, trees)
    requires first == Some(RowView(types, queue[0].1))
    ensures Restored(types, queue, [first] + trees)
  {
    hide RowView;
    forall i | 0 < i < |queue|
      ensures ([first] + trees)[i] == Some(RowView(types, queue[i].1))
    {
      assert next[..|queue| - 1][i - 1] == queue[i];
    }
  }

  lemma {:induction false} RootsPrefix<T>(rows: seq<Row>, items: seq<Option<T>>, low: int, high: int, n: nat)
    requires |rows| == |items| && n <= |rows|
    requires forall i :: 0 <= i < n ==> low <= rows[i].pid < high && items[i].Some?
    requires forall i :: n <= i < |rows| ==> high <= rows[i].pid
    ensures |Roots(rows, items, low, high)| == n
    ensures forall k :: 0 <= k < n ==> Roots(rows, items, low, high)[k] == (rows[k].pid, items[k].value)
  {
    if rows != [] {
      RootsPrefix(rows[1..], items[1..], low, high, if n == 0 then 0 else n - 1);
      var tail := Roots(rows[1..], items[1..], low, high);
      if n > 0 {
        assert Roots(rows, items, low, high) == [(rows[0].pid, items[0].value)] + tail;
      }
    }
  }

  /** The rows of a forest hang together, and reading them restores every root under its carrier with its
    persisted view: the same shape, the same order at every level. */
  lemma {:induction false} RowRoundTrip(types: Types, list: seq<Placed>, low: int, high: int)
    requires high <= FIRST_SID
    requires forall i :: 0 <= i < |list| ==> low <= list[i].0 < high && SavableTree(types, list[i].1)
    ensures var rows := Flattened(types, list, FIRST_SID);
      && Ordered(rows, high)
      && Roots(rows, Trees(types, rows), low, high) ==
        seq(|list|, i requires 0 <= i < |list| => (list[i].0, RowView(types, list[i].1)))
  {
    var rows := Flattened(types, list, FIRST_SID);
    FlattenedShape(types, list, FIRST_SID);
    TreesOfFlattened(types, list, FIRST_SID);
    hide *;
    ShapedOrder(rows, list, high);
    RootsRestored(types, list, rows, Trees(types, rows), low, high);
  }

  lemma {:induction false} RootsRestored(types: Types, list: seq<Placed>, rows: seq<Row>, trees: seq<Option<Tree>>,
                                         low: int, high: int)
    requires Shaped(rows, list, FIRST_SID) && Restored(types, list, trees) && |trees| == |rows| && high <= FIRST_SID
    requires forall i :: 0 <= i < |list| ==> low <= list[i].0 < high
    ensures Roots(rows, trees, low, high) ==
      seq(|list|, i requires 0 <= i < |list| => (list[i].0, RowView(types, list[i].1)))
  {
    hide Roots, RowView;
    forall i | 0 <= i < |list|
      ensures low <= rows[i].pid < high && trees[i].Some?
    {
      assert trees[i] == Some(RowView(types, list[i].1));
    }
    RootsPrefix(rows, trees, low, high, |list|);
  }

  lemma {:induction false} ShapedOrder(rows: seq<Row>, list: seq<Placed>, high: int)
    requires Shaped(rows, list, FIRST_SID) && high <= FIRST_SID
    ensures Ordered(rows, high)
  {
  }

  /** A tree survives its rows unchanged exactly when each of its items does. */
  lemma {:induction false} RowViewIsExact(types: Types, t: Tree)
    requires SavableTree(types, t)
    ensures RowView(types, t) == t <==> ExactTree(types, t)
    decreases t
  {
    hide RowData, Exact;
    RowItemIsExact(types, t.data);
    if t.Box? {
      forall i | 0 <= i < |t.kids|
        ensures RowViews(types, t.kids)[i] == t.kids[i] <==> ExactTree(types, t.kids[i])
      {
        RowViewIsExact(types, t.kids[i]);
      }
      assert RowViews(types, t.kids) == t.kids <==>
        forall i :: 0 <= i < |t.kids| ==> RowViews(types, t.kids)[i] == t.kids[i];
    }
  }

  // ---- the writer -------------------------------------------------------------------------------

  /** The children still to be written for the containers of the work list. */
  function Pending(containers: seq<(Tree, int)>): seq<Placed> {
    if containers == [] then [] else Tagged(containers[0].1, Kids(containers[0].0)) + Pending(containers[1..])
  }

  lemma {:induction false} PendingJoined(containers: seq<(Tree, int)>, c: (Tree, int))
    ensures Pending(containers + [c]) == Pending(containers) + Tagged(c.1, Kids(c.0))
  {
    if containers == [] {
      assert [] + [c] == [c] && Pending([c][1..]) == [];
    } else {
      assert (containers + [c])[1..] == containers[1..] + [c];
      PendingJoined(containers[1..], c);
    }
  }

  /** The walk that has written `rows` and still has `queue` before it. */
  ghost predicate Halfway(types: Types, list: seq<Placed>, rows: seq<Row>, queue: seq<Placed>, runningId: int) {
    Flattened(types, list, FIRST_SID) == rows + Flattened(types, queue, runningId + 1)
  }

  function Noted(containers: seq<(Tree, int)>, t: Tree, sid: int): seq<(Tree, int)> {
    if t.Box? then containers + [(t, sid)] else containers
  }

  /** Writing the first item of `front`; a container is noted for later. */
  lemma {:induction false} WalkStep(types: Types, list: seq<Placed>, rows: seq<Row>, front: seq<Placed>,
                                    containers: seq<(Tree, int)>, runningId: int)
    requires front != [] && Halfway(types, list, rows, front + Pending(containers), runningId)
    ensures var t := front[0].1;
      var noted := Noted(containers, t, runningId + 1);
      && Halfway(types, list, rows + [RowOf(types, front[0].0, runningId + 1, t.data)], front[1..] + Pending(noted),
        runningId + 1)
      && QueueSize(front[1..] + Pending(noted)) < QueueSize(front + Pending(containers))
  {
    hide Flattened, RowOf, QueueSize, Pending;
    var t, q := front[0].1, front + Pending(containers);
    var noted := Noted(containers, t, runningId + 1);
    var row := RowOf(types, front[0].0, runningId + 1, t.data);
    var next := Flattened(types, q[1..] + Tagged(runningId + 1, Kids(t)), runningId + 2);
    FlattenedStep(types, q, runningId + 1);
    PendingJoined(containers, (t, runningId + 1));
    assert Pending(noted) == Pending(containers)
      + Tagged(runningId + 1, Kids(t)) by { if !t.Box? { assert Tagged(runningId + 1, Kids(t)) == []; } }
    hide Tagged, Noted, Kids;
    assert q[0] == front[0];
    assert q[1..] == front[1..] + Pending(containers);
    assert q[1..] + Tagged(runningId + 1, Kids(t)) == front[1..] + Pending(noted);
    FirstOf(rows, Flattened(types, q, runningId + 1), row, next);
  }

  lemma {:induction false} FirstOf(rows: seq<Row>, more: seq<Row>, row: Row, next: seq<Row>)
    requires more != [] && more[0] == row && more[1..] == next
    ensures rows + more == rows + [row] + next
  {
  }

  /** One row: the attribute stream is cleared and refilled. */
  method SaveRow(types: Types, pid: int, sid: int, x: ItemData, stream: PropWriteStream) returns (row: Row)
    modifies stream
    ensures row == RowOf(types, pid, sid, x)
  {
    hide Serialized, SubType;
    stream.Clear();
    SerializeAttr(types, x, stream);
    row := Row(pid, sid, x.id, SubType(types, x), stream.buffer);
  }

  /** The first loop is at its item `i`. */
  ghost predicate AtRoot(types: Types, list: seq<Placed>, rows: seq<Row>, i: nat, containers: seq<(Tree, int)>,
                         runningId: int) {
    i <= |list| && Halfway(types, list, rows, list[i..] + Pending(containers), runningId)
  }

  lemma {:induction false} NothingWritten(types: Types, list: seq<Placed>)
    ensures AtRoot(types, list, [], 0, [], FIRST_SID - 1)
  {
    assert list[0..] + Pending([]) == list;
    hide Flattened;
    assert [] + Flattened(types, list, FIRST_SID) == Flattened(types, list, FIRST_SID);
  }

  lemma {:induction false} RootStep(types: Types, list: seq<Placed>, rows: seq<Row>, i: nat,
                                    containers: seq<(Tree, int)>, runningId: int)
    requires i < |list| && AtRoot(types, list, rows, i, containers, runningId)
    ensures var (pid, t) := list[i];
      AtRoot(types, list, rows + [RowOf(types, pid, runningId + 1, t.data)], i + 1,
             if t.Box? then containers + [(t, runningId + 1)] else containers, runningId + 1)
  {
    hide Halfway, RowOf, QueueSize, Pending;
    WalkStep(types, list, rows, list[i..], containers, runningId);
    assert list[i..][0] == list[i] && list[i..][1..] == list[i + 1..];
  }

  lemma {:induction false} RootsWritten(types: Types, list: seq<Placed>, rows: seq<Row>, containers: seq<(Tree, int)>,
                                        runningId: int)
    requires AtRoot(types, list, rows, |list|, containers, runningId)
    ensures Halfway(types, list, rows, Pending(containers), runningId)
  {
    hide Halfway, Pending;
    assert list[|list|..] + Pending(containers) == Pending(containers);
  }

  /** The first loop of `IOLoginData::saveItems`: the items that lie directly on a carrier. */
  method SaveRoots(types: Types, list: seq<Placed>, stream: PropWriteStream)
    returns (rows: seq<Row>, containers: seq<(Tree, int)>, runningId: int)
    modifies stream
    ensures Halfway(types, list, rows, Pending(containers), runningId)
  {
    rows, containers, runningId := [], [], FIRST_SID - 1;
    NothingWritten(types, list);
    hide *;
    for i := 0 to |list|
      invariant AtRoot(types, list, rows, i, containers, runningId)
    {
      var (pid, t) := list[i];
      RootStep(types, list, rows, i, containers, runningId);
      runningId := runningId + 1;
      var row := SaveRow(types, pid, runningId, t.data, stream);
      rows := rows + [row];
      if t.Box? {
        containers := containers + [(t, runningId)];
      }
    }
    RootsWritten(types, list, rows, containers, runningId);
  }

  /** The inner loop of `IOLoginData::saveItems`: the children of one container, from first to last. `i` is
    the place in the list of containers, which grows at its end. */
  method SaveChildren(types: Types, ghost list: seq<Placed>, rows0: seq<Row>, kids: seq<Tree>, parentId: int,
                      containers0: seq<(Tree, int)>, ghost i: nat, runningId0: int, stream: PropWriteStream)
    returns (rows: seq<Row>, containers: seq<(Tree, int)>, runningId: int)
    requires i <= |containers0|
    requires Halfway(types, list, rows0, Tagged(parentId, kids) + Pending(containers0[i..]), runningId0)
    modifies stream
    ensures i <= |containers| && Halfway(types, list, rows, Pending(containers[i..]), runningId)
    ensures 2 * QueueSize(Pending(containers[i..])) + |containers|
      <= 2 * QueueSize(Tagged(parentId, kids) + Pending(containers0[i..])) + |containers0|
  {
    hide Halfway, Pending, RowOf, QueueSize;
    rows, containers, runningId := rows0, containers0, runningId0;
    assert kids[0..] == kids;
    for k := 0 to |kids|
      invariant i <= |containers|
      invariant Halfway(types, list, rows, Tagged(parentId, kids[k..]) + Pending(containers[i..]), runningId)
      invariant 2 * QueueSize(Tagged(parentId, kids[k..]) + Pending(containers[i..])) + |containers|
        <= 2 * QueueSize(Tagged(parentId, kids) + Pending(containers0[i..])) + |containers0|
    {
      WalkStep(types, list, rows, Tagged(parentId, kids[k..]), containers[i..], runningId);
      assert Tagged(parentId, kids[k..])[1..] == Tagged(parentId, kids[k + 1..]);
      ghost var noted := Noted(containers[i..], kids[k], runningId + 1);
      runningId := runningId + 1;
      if kids[k].Box? {
        containers := containers + [(kids[k], runningId)];
      }
      assert containers[i..] == noted;
      var row := SaveRow(types, parentId, runningId, kids[k].data, stream);
      rows := rows + [row];
    }
    assert Tagged(parentId, kids[|kids|..]) + Pending(containers[i..]) == Pending(containers[i..]);
  }

  /** `IOLoginData::saveItems`: the second loop goes through a list of containers that it extends. */
  method SaveItems(types: Types, list: seq<Placed>, stream: PropWriteStream) returns (rows: seq<Row>)
    modifies stream
    ensures rows == Flattened(types, list, FIRST_SID)
  {
    var containers, runningId;
    rows, containers, runningId := SaveRoots(types, list, stream);
    assert containers[0..] == containers;
    var i := 0;
    while i < |containers|
      invariant 0 <= i <= |containers|
      invariant Halfway(types, list, rows, Pending(containers[i..]), runningId)
      decreases 2 * QueueSize(Pending(containers[i..])) + |containers| - i
    {
      hide Halfway, QueueSize;
      var (container, parentId) := containers[i];
      i := i + 1;
      assert containers[i - 1..][1..] == containers[i..];
      rows, containers, runningId := SaveChildren(types, list, rows, Kids(container), parentId, containers, i,
        runningId, stream);
    }
    assert rows + [] == rows;
  }

  // ---- the reader -------------------------------------------------------------------------------

  /** The integer attributes that the forest of objects interprets; all the others stay with the data. */
  function IntAttrs(x: ItemData): Forest.Attrs {
    (if x.duration.Some? then map[Forest.Duration := x.duration.value] else map[])
    + (if x.decayState.Some? then map[Forest.DecayState := x.decayState.value] else map[])
    + (if x.weight.Some? then map[Forest.WeightAttr := x.weight.value] else map[])
    + (if x.fluidType.Some? then map[Forest.FluidType := x.fluidType.value] else map[])
    + (if x.charges.Some? then map[Forest.Charges := x.charges.value] else map[])
  }

  type Objects = map<Forest.Item, ItemData>

  type ItemMap = map<int, (Forest.Item, int)>

  /** The object that was created for a row. */
  ghost predicate Stands(types: Types, row: Row, x: Forest.Item, data: Objects, itemMap: ItemMap)
    reads x`id, x`count, x`attrs
  {
    && x in data && FromRow(types, row) == Some(data[x])
    && x.isContainer == types(row.itemtype).container
    && x.id == data[x].id && x.count == data[x].count && x.attrs == IntAttrs(data[x])
    && row.sid in itemMap && itemMap[row.sid] == (x, row.pid)
  }

  /** Every row of a known item has its own object, and there are no others. */
  ghost predicate Created(types: Types, rows: seq<Row>, nodes: seq<Option<Forest.Item>>, data: Objects, itemMap: ItemMap)
    reads data.Keys`id, data.Keys`count, data.Keys`attrs
  {
    && |nodes| == |rows|
    && (forall i :: 0 <= i < |rows| ==> (nodes[i].Some? <==> FromRow(types, rows[i]).Some?))
    && (forall i :: 0 <= i < |rows| && nodes[i].Some? ==>
          nodes[i].value in data && Stands(types, rows[i], nodes[i].value, data, itemMap))
    && (forall i, j :: 0 <= i < j < |rows| && nodes[i].Some? ==> nodes[i] != nodes[j])
    && (forall s :: s in itemMap ==> exists i :: 0 <= i < |rows| && rows[i].sid == s && nodes[i].Some?)
  }

  /** One row of `IOLoginData::loadItems`; an item whose attributes fail to parse is kept. */
  method LoadRow(types: Types, row: Row) returns (loaded: Option<ItemData>)
    ensures loaded == FromRow(types, row)
  {
    hide ReadAttributes;
    var created := CreateItem(types, row.itemtype, row.count);
    if created.None? { return None; }
    var stream := new PropStream(row.attributes);
    var ok, x, children := UnserializeAttr(types, created.value, stream);
    loaded := Some(x);
  }

  /** Another row and its object. */
  lemma {:induction false} CreatedMore(types: Types, rows: seq<Row>, nodes: seq<Option<Forest.Item>>, data: Objects,
                                       itemMap: ItemMap, node: Option<Forest.Item>, newData: Objects, newMap: ItemMap)
    requires rows != [] && Created(types, rows[1..], nodes, data, itemMap)
    requires forall k :: 0 < k < |rows| ==> rows[k].sid != rows[0].sid
    requires node.Some? <==> FromRow(types, rows[0]).Some?
    requires node.Some? ==>
      node.value !in data && newData == data[node.value := FromRow(types, rows[0]).value]
      && newMap == itemMap[rows[0].sid := (node.value, rows[0].pid)]
      && Stands(types, rows[0], node.value, newData, newMap)
    requires node.None? ==> newData == data && newMap == itemMap
    ensures Created(types, rows, [node] + nodes, newData, newMap)
  {
    hide FromRow, IntAttrs;
    var all := [node] + nodes;
    forall i | 0 <= i < |rows| && all[i].Some?
      ensures all[i].value in newData && Stands(types, rows[i], all[i].value, newData, newMap)
    {
      if i > 0 {
        assert rows[1..][i - 1] == rows[i] && all[i] == nodes[i - 1];
        assert Stands(types, rows[i], all[i].value, data, itemMap);
      }
    }
    forall i | 0 <= i < |rows|
      ensures all[i].Some? <==> FromRow(types, rows[i]).Some?
    {
      if i > 0 { assert rows[1..][i - 1] == rows[i] && all[i] == nodes[i - 1]; }
    }
    forall s | s in newMap
      ensures exists i :: 0 <= i < |rows| && rows[i].sid == s && all[i].Some?
    {
      assert (node.Some? && s == rows[0].sid) || s in itemMap;
      SidHasRow(rows, nodes, node, s);
    }
    hide Stands;
  }

  lemma {:induction false} SidHasRow(rows: seq<Row>, nodes: seq<Option<Forest.Item>>, node: Option<Forest.Item>, s: int)
    requires rows != [] && |nodes| == |rows| - 1
    requires (node.Some? && s == rows[0].sid) || exists i :: 0 <= i < |rows[1..]| && rows[1..][i].sid == s && nodes[i].Some?
    ensures exists i :: 0 <= i < |rows| && rows[i].sid == s && ([node] + nodes)[i].Some?
  {
    if node.Some? && s == rows[0].sid {
      assert ([node] + nodes)[0].Some?;
    } else {
      var i :| 0 <= i < |rows[1..]| && rows[1..][i].sid == s && nodes[i].Some?;
      assert rows[i + 1].sid == s && ([node] + nodes)[i + 1].Some?;
    }
  }

  /** `IOLoginData::loadItems`: one loose object per row, from the last row to the first. */
  method CreateItems(types: Types, w: Forest.Types, maxItems: nat -> nat, rows: seq<Row>, ghost high: int)
    returns (itemMap: ItemMap, data: Objects, ghost nodes: seq<Option<Forest.Item>>)
    requires Ordered(rows, high)
    ensures fresh(data.Keys) && Created(types, rows, nodes, data, itemMap) && forall x :: x in data ==> Loose(x)
  {
    itemMap, data, nodes := map[], map[], [];
    assert Created(types, rows[|rows|..], nodes, data, itemMap);
    hide FromRow, IntAttrs, Created;
    for i := |rows| downto 0
      invariant fresh(data.Keys)
      invariant forall x :: x in data ==> Loose(x)
      invariant Created(types, rows[i..], nodes, data, itemMap)
    {
      assert rows[i..][1..] == rows[i + 1..];
      ghost var node: Option<Forest.Item>, oldData, oldMap := None, data, itemMap;
      var loaded := LoadRow(types, rows[i]);
      if loaded.Some? {
        var d := loaded.value;
        var item := new Forest.Item(types(rows[i].itemtype).container, maxItems(d.id), d.id, d.count, IntAttrs(d));
        data := data[item := d];
        itemMap := itemMap[rows[i].sid := (item, rows[i].pid)];
        node := Some(item);
      }
      CreatedMore(types, rows[i..], nodes, oldData, oldMap, node, data, itemMap);
      nodes := [node] + nodes;
    }
    assert rows[0..] == rows;
  }

  ghost predicate Loose(x: Forest.Item)
    reads x
  {
    x.parent == null && x.itemlist == [] && x.totalWeight == 0 && x.path == [x]
  }

  /** The rows from `i` on have been put in place: their items lie in their containers, in the order of the
    rows, and the items of earlier rows are still loose. */
  ghost predicate Placement(rows: seq<Row>, nodes: seq<Option<Forest.Item>>, S: set<Forest.Item>, i: nat)
    requires |rows| == |nodes| && i <= |rows|
    reads S`parent, S`itemlist
  {
    && (forall k :: 0 <= k < |nodes| && nodes[k].Some? ==> nodes[k].value in S)
    && (forall k :: 0 <= k < i && nodes[k].Some? ==> nodes[k].value.parent == null)
    && (forall k :: 0 <= k < |rows| && nodes[k].Some? ==> Content(rows, nodes, S, i, k))
  }

  ghost predicate Content(rows: seq<Row>, nodes: seq<Option<Forest.Item>>, S: set<Forest.Item>, i: nat, k: nat)
    requires |rows| == |nodes| && i <= |rows| && k < |rows| && nodes[k].Some? && nodes[k].value in S
    reads S`itemlist
  {
    var x := nodes[k].value;
    x.itemlist == if x.isContainer then Select(rows[i..], nodes[i..], rows[k].sid) else []
  }

  /** Row `i` belongs below row `k`. */
  ghost predicate Below(rows: seq<Row>, nodes: seq<Option<Forest.Item>>, i: nat, k: nat)
    requires |rows| == |nodes| && i < |rows| && k < |rows|
  {
    nodes[i].Some? && nodes[k].Some? && nodes[k].value.isContainer && rows[i].pid == rows[k].sid
  }

  lemma {:induction false} SelectStep<T>(rows: seq<Row>, items: seq<Option<T>>, i: nat, pid: int)
    requires |rows| == |items| && i < |rows|
    ensures Select(rows[i..], items[i..], pid)
      == (if rows[i].pid == pid && items[i].Some? then [items[i].value] else []) + Select(rows[i + 1..], items[i + 1..], pid)
  {
    assert rows[i..][1..] == rows[i + 1..] && items[i..][1..] == items[i + 1..];
  }

  /** A row that belongs nowhere leaves everything in place. */
  lemma {:induction false} NothingPlaced(rows: seq<Row>, nodes: seq<Option<Forest.Item>>, S: set<Forest.Item>, i: nat)
    requires |rows| == |nodes| && i < |rows| && Placement(rows, nodes, S, i + 1)
    requires forall k :: 0 <= k < |rows| ==> !Below(rows, nodes, i, k)
    ensures Placement(rows, nodes, S, i)
  {
    hide Select;
    forall k | 0 <= k < |rows| && nodes[k].Some?
      ensures Content(rows, nodes, S, i, k)
    {
      assert Content(rows, nodes, S, i + 1, k) && !Below(rows, nodes, i, k);
      SelectStep(rows, nodes, i, rows[k].sid);
    }
  }

  /** Between the two states the item of row `i` was pushed to the front of the container of row `j`. */
  twostate lemma {:induction false} OnePlaced(new rows: seq<Row>, new nodes: seq<Option<Forest.Item>>,
                                              new S: set<Forest.Item>, new i: nat, new j: nat)
    requires old(allocated(rows)) && old(allocated(nodes)) && old(allocated(S))
    requires |rows| == |nodes| && i < |rows| && j < |rows| && old(Placement(rows, nodes, S, i + 1))
    requires Below(rows, nodes, i, j)
    requires forall k :: 0 <= k < |rows| && k != j ==> rows[k].sid != rows[j].sid && nodes[k] != nodes[j]
    requires forall k :: 0 <= k < i && nodes[k].Some? ==> nodes[k].value.parent == null
    requires forall x :: x in S ==> x.itemlist == (if x == nodes[j].value then [nodes[i].value] else []) + old(x.itemlist)
    ensures Placement(rows, nodes, S, i)
  {
    hide Select;
    forall k | 0 <= k < |rows| && nodes[k].Some?
      ensures Content(rows, nodes, S, i, k)
    {
      assert old(Content(rows, nodes, S, i + 1, k));
      SelectStep(rows, nodes, i, rows[k].sid);
    }
  }

  /** The place of an item in the forest: its own row and the row of its container, if any. */
  lemma {:induction false} FindContainer(types: Types, rows: seq<Row>, nodes: seq<Option<Forest.Item>>, data: Objects,
                                         itemMap: ItemMap, high: int, i: nat)
    returns (j: int)
    requires Ordered(rows, high) && Created(types, rows, nodes, data, itemMap) && i < |rows| && nodes[i].Some?
    ensures |nodes| == |rows| && forall k :: 0 <= k < i ==> nodes[k] != nodes[i]
    ensures nodes[i].value in data && rows[i].sid in itemMap && itemMap[rows[i].sid] == (nodes[i].value, rows[i].pid)
    ensures rows[i].pid in itemMap && itemMap[rows[i].pid].0.isContainer ==>
      0 <= j < i && Below(rows, nodes, i, j) && itemMap[rows[i].pid].0 == nodes[j].value && nodes[j].value in data
      && (forall k :: 0 <= k < |rows| && k != j ==> rows[k].sid != rows[j].sid && nodes[k] != nodes[j])
    ensures !(rows[i].pid in itemMap && itemMap[rows[i].pid].0.isContainer) ==>
      forall k :: 0 <= k < |rows| ==> !Below(rows, nodes, i, k)
  {
    hide FromRow, IntAttrs;
    assert Stands(types, rows[i], nodes[i].value, data, itemMap);
    j := -1;
    forall k | 0 <= k < |rows| && Below(rows, nodes, i, k)
      ensures rows[i].pid in itemMap && itemMap[rows[i].pid].0 == nodes[k].value
    {
      assert Stands(types, rows[k], nodes[k].value, data, itemMap);
    }
    if rows[i].pid in itemMap && itemMap[rows[i].pid].0.isContainer {
      j :| 0 <= j < |rows| && rows[j].sid == rows[i].pid && nodes[j].Some?;
      assert Stands(types, rows[j], nodes[j].value, data, itemMap);
    }
  }

  /** One step of the loop of `loadPlayer` for an item whose pid is not that of a carrier. */
  method AttachItem(types: Types, w: Forest.Types, rows: seq<Row>, i: nat, ghost high: int,
                    itemMap: ItemMap, data: Objects, ghost nodes: seq<Option<Forest.Item>>)
    requires Ordered(rows, high) && Created(types, rows, nodes, data, itemMap) && Forest.Forest(w, data.Keys)
    requires i < |rows| && nodes[i].Some? && rows[i].sid in itemMap && Placement(rows, nodes, data.Keys, i + 1)
    modifies data.Keys`itemlist, data.Keys`parent, data.Keys`path, data.Keys`totalWeight
    ensures Forest.Forest(w, data.Keys) && Placement(rows, nodes, data.Keys, i)
  {
    hide Created, Stands, Ordered, Select, Content;
    ghost var j := FindContainer(types, rows, nodes, data, itemMap, high, i);
    var (item, pid) := itemMap[rows[i].sid];
    if pid in itemMap && itemMap[pid].0.isContainer {
      var container := itemMap[pid].0;
      assert container.Linked(data.Keys);
      assert container.parent == null && item.parent == null;
      hide Forest.Forest, Placement;
      label Before:
      container.InternalAddThing(w, item, data.Keys);
      OnePlaced@Before(rows, nodes, data.Keys, i, j);
    } else {
      NothingPlaced(rows, nodes, data.Keys, i);
    }
  }

  /** The loop of `loadPlayer` over the created items, highest sid first; an item whose pid is that of a
    carrier is handed to it, one whose pid names no container is left alone. */
  method AttachItems(types: Types, w: Forest.Types, rows: seq<Row>, low: int, high: int,
                     itemMap: ItemMap, data: Objects, ghost nodes: seq<Option<Forest.Item>>)
    returns (roots: seq<(int, Forest.Item)>)
    requires Ordered(rows, high) && Created(types, rows, nodes, data, itemMap) && Forest.Forest(w, data.Keys)
    requires Placement(rows, nodes, data.Keys, |rows|)
    modifies data.Keys`itemlist, data.Keys`parent, data.Keys`path, data.Keys`totalWeight
    ensures Forest.Forest(w, data.Keys) && Placement(rows, nodes, data.Keys, 0)
    ensures roots == Roots(rows, nodes, low, high)
  {
    hide Placement, Select, Forest.Forest, FromRow;
    roots := [];
    for i := |rows| downto 0
      invariant Created(types, rows, nodes, data, itemMap)
      invariant Forest.Forest(w, data.Keys) && Placement(rows, nodes, data.Keys, i)
      invariant roots == Roots(rows[i..], nodes[i..], low, high)
    {
      assert rows[i..][1..] == rows[i + 1..] && nodes[i..][1..] == nodes[i + 1..];
      if rows[i].sid in itemMap {
        OwnObject(types, rows, nodes, data, itemMap, high, i);
        var (item, pid) := itemMap[rows[i].sid];
        if low <= pid < high {
          CarrierRow(rows, nodes, high, i);
          NothingPlaced(rows, nodes, data.Keys, i);
          roots := [(pid, item)] + roots;
        } else {
          AttachItem(types, w, rows, i, high, itemMap, data, nodes);
        }
      } else {
        NothingPlaced(rows, nodes, data.Keys, i);
      }
    }
    assert rows[0..] == rows && nodes[0..] == nodes;
  }

  lemma {:induction false} CarrierRow(rows: seq<Row>, nodes: seq<Option<Forest.Item>>, high: int, i: nat)
    requires Ordered(rows, high) && |rows| == |nodes| && i < |rows| && rows[i].pid < high
    ensures forall k :: 0 <= k < |rows| ==> !Below(rows, nodes, i, k)
  {
  }

  lemma {:induction false} OwnObject(types: Types, rows: seq<Row>, nodes: seq<Option<Forest.Item>>, data: Objects,
                                     itemMap: ItemMap, high: int, i: nat)
    requires Ordered(rows, high) && Created(types, rows, nodes, data, itemMap) && i < |rows| && rows[i].sid in itemMap
    ensures nodes[i].Some? && itemMap[rows[i].sid] == (nodes[i].value, rows[i].pid)
  {
    hide FromRow, IntAttrs;
    var k :| 0 <= k < |rows| && rows[k].sid == rows[i].sid && nodes[k].Some?;
    assert k == i;
    assert Stands(types, rows[i], nodes[i].value, data, itemMap);
  }

  // ---- the objects are the trees ----------------------------------------------------------------

  /** The object `x` and everything in it are the tree `t`. */
  ghost predicate Represents(x: Forest.Item, t: Tree, data: Objects)
    reads data.Keys`id, data.Keys`count, data.Keys`attrs, data.Keys`itemlist
    decreases t
  {
    && x in data && data[x] == t.data
    && x.id == t.data.id && x.count == t.data.count && x.attrs == IntAttrs(t.data)
    && (x.isContainer <==> t.Box?)
    && (t.Leaf? ==> x.itemlist == [])
    && (t.Box? ==> AllRepresent(x.itemlist, t.kids, data))
  }

  ghost predicate AllRepresent(xs: seq<Forest.Item>, ts: seq<Tree>, data: Objects)
    reads data.Keys`id, data.Keys`count, data.Keys`attrs, data.Keys`itemlist
    decreases ts
  {
    |xs| == |ts| && forall i :: 0 <= i < |xs| ==> Represents(xs[i], ts[i], data)
  }

  /** The tree of a row holds the trees of the rows that name its sid, wherever they are. */
  lemma {:induction false} TreeOfRow(types: Types, rows: seq<Row>, high: int, j: nat)
    requires Ordered(rows, high) && j < |rows|
    ensures Trees(types, rows)[j] == TreeOf(types, rows[j], Select(rows, Trees(types, rows), rows[j].sid))
  {
    hide TreeOf;
    var tail, trees := rows[1..], Trees(types, rows);
    assert trees[1..] == Trees(types, tail);
    assert Select(rows, trees, rows[j].sid) == Select(tail, trees[1..], rows[j].sid);
    if j > 0 {
      assert rows[j] == tail[j - 1];
      TreeOfRow(types, tail, high, j - 1);
    }
  }

  /** Selecting objects and selecting trees go in step. */
  lemma {:induction false} SelectInStep(rows: seq<Row>, nodes: seq<Option<Forest.Item>>, trees: seq<Option<Tree>>,
                                        data: Objects, pid: int)
    requires |rows| == |nodes| == |trees|
    requires forall k :: 0 <= k < |rows| ==> (nodes[k].Some? <==> trees[k].Some?)
    requires forall k :: 0 <= k < |rows| && nodes[k].Some? && rows[k].pid == pid ==>
      Represents(nodes[k].value, trees[k].value, data)
    ensures AllRepresent(Select(rows, nodes, pid), Select(rows, trees, pid), data)
  {
    hide Represents;
    if rows != [] {
      SelectInStep(rows[1..], nodes[1..], trees[1..], data, pid);
    }
  }

  lemma {:induction false} RootsInStep(rows: seq<Row>, nodes: seq<Option<Forest.Item>>, trees: seq<Option<Tree>>,
                                       data: Objects, low: int, high: int)
    requires |rows| == |nodes| == |trees|
    requires forall k :: 0 <= k < |rows| ==> (nodes[k].Some? <==> trees[k].Some?)
    requires forall k :: 0 <= k < |rows| && nodes[k].Some? ==> Represents(nodes[k].value, trees[k].value, data)
    ensures RootsRepresent(Roots(rows, nodes, low, high), Roots(rows, trees, low, high), data)
  {
    hide Represents;
    if rows != [] {
      RootsInStep(rows[1..], nodes[1..], trees[1..], data, low, high);
    }
  }

  /** The objects below the carriers are the trees below them, in the same order. */
  ghost predicate RootsRepresent(roots: seq<(int, Forest.Item)>, trees: seq<(int, Tree)>, data: Objects)
    reads data.Keys`id, data.Keys`count, data.Keys`attrs, data.Keys`itemlist
  {
    |roots| == |trees| && forall i :: 0 <= i < |roots| ==>
      roots[i].0 == trees[i].0 && Represents(roots[i].1, trees[i].1, data)
  }

  lemma {:induction false} TreesExist(types: Types, rows: seq<Row>, nodes: seq<Option<Forest.Item>>, data: Objects,
                                      itemMap: ItemMap)
    requires Created(types, rows, nodes, data, itemMap)
    ensures |nodes| == |rows| == |Trees(types, rows)|
    ensures forall k :: 0 <= k < |rows| ==> (nodes[k].Some? <==> Trees(types, rows)[k].Some?)
  {
    hide FromRow, Stands;
    forall k | 0 <= k < |rows|
      ensures FromRow(types, rows[k]).Some? <==> Trees(types, rows)[k].Some?
    {
      TreeExists(types, rows, k);
    }
  }

  lemma {:induction false} TreeExists(types: Types, rows: seq<Row>, k: nat)
    requires k < |rows|
    ensures FromRow(types, rows[k]).Some? <==> Trees(types, rows)[k].Some?
  {
    hide FromRow;
    if k > 0 { TreeExists(types, rows[1..], k - 1); }
  }

  /** What the two loops of `IOLoginData::loadPlayer` leave of one row. */
  ghost predicate Built(types: Types, row: Row, x: Forest.Item, kids: seq<Forest.Item>, data: Objects)
    reads x
  {
    && x in data && FromRow(types, row) == Some(data[x])
    && x.id == data[x].id && x.count == data[x].count && x.attrs == IntAttrs(data[x])
    && x.isContainer == types(row.itemtype).container
    && x.itemlist == if x.isContainer then kids else []
  }

  lemma {:induction false} RowBuilt(types: Types, rows: seq<Row>, nodes: seq<Option<Forest.Item>>, data: Objects,
                                    itemMap: ItemMap, j: nat)
    requires Created(types, rows, nodes, data, itemMap) && Placement(rows, nodes, data.Keys, 0)
    requires j < |rows| && nodes[j].Some?
    ensures Built(types, rows[j], nodes[j].value, Select(rows, nodes, rows[j].sid), data)
  {
    hide Select, FromRow, IntAttrs;
    assert Stands(types, rows[j], nodes[j].value, data, itemMap) && Content(rows, nodes, data.Keys, 0, j);
    assert rows[0..] == rows && nodes[0..] == nodes;
  }

  lemma {:induction false} BuiltRepresents(types: Types, row: Row, x: Forest.Item, kids: seq<Forest.Item>,
                                           trees: seq<Tree>, data: Objects)
    requires Built(types, row, x, kids, data) && AllRepresent(kids, trees, data)
    ensures TreeOf(types, row, trees).Some? && Represents(x, TreeOf(types, row, trees).value, data)
  {
    hide FromRow, IntAttrs, AllRepresent;
  }

  lemma {:induction false} ChildIsBelow(rows: seq<Row>, high: int, j: nat, k: nat)
    requires Ordered(rows, high) && j < |rows| && k < |rows| && rows[k].pid == rows[j].sid
    ensures j < k
  {
  }

  /** Once every row is in place, each object is the tree of its row. */
  lemma {:induction false} RowRepresents(types: Types, rows: seq<Row>, nodes: seq<Option<Forest.Item>>, data: Objects,
                                         itemMap: ItemMap, high: int, j: nat)
    requires Ordered(rows, high) && Created(types, rows, nodes, data, itemMap) && Placement(rows, nodes, data.Keys, 0)
    requires j < |rows| && nodes[j].Some?
    ensures Trees(types, rows)[j].Some? && Represents(nodes[j].value, Trees(types, rows)[j].value, data)
    decreases |rows| - j
  {
    hide *;
    var trees := Trees(types, rows);
    TreesExist(types, rows, nodes, data, itemMap);
    var x := nodes[j].value;
    forall k | 0 <= k < |rows| && nodes[k].Some? && rows[k].pid == rows[j].sid
      ensures Represents(nodes[k].value, trees[k].value, data)
    {
      ChildIsBelow(rows, high, j, k);
      RowRepresents(types, rows, nodes, data, itemMap, high, k);
    }
    SelectInStep(rows, nodes, trees, data, rows[j].sid);
    RowBuilt(types, rows, nodes, data, itemMap, j);
    var below, kids := Select(rows, nodes, rows[j].sid), Select(rows, trees, rows[j].sid);
    BuiltRepresents(types, rows[j], x, below, kids, data);
    TreeOfRow(types, rows, high, j);
  }

  /** Loading a table of rows: `loadItems`, then the loop that puts the items in place. The result is the
    forest that the rows describe, and every cached weight in it is the true one. */
  method LoadForest(types: Types, w: Forest.Types, maxItems: nat -> nat, rows: seq<Row>, low: int, high: int)
    returns (roots: seq<(int, Forest.Item)>, data: Objects)
    requires Ordered(rows, high)
    ensures fresh(data.Keys) && Forest.Forest(w, data.Keys)
    ensures RootsRepresent(roots, Roots(rows, Trees(types, rows), low, high), data)
  {
    var itemMap: ItemMap;
    ghost var nodes: seq<Option<Forest.Item>>;
    itemMap, data, nodes := CreateItems(types, w, maxItems, rows, high);
    LooseItems(types, w, rows, nodes, data, itemMap);
    roots := AttachItems(types, w, rows, low, high, itemMap, data, nodes);
    TreesExist(types, rows, nodes, data, itemMap);
    forall k | 0 <= k < |rows| && nodes[k].Some?
      ensures Represents(nodes[k].value, Trees(types, rows)[k].value, data)
    {
      RowRepresents(types, rows, nodes, data, itemMap, high, k);
    }
    RootsInStep(rows, nodes, Trees(types, rows), data, low, high);
  }

  lemma {:induction false} LooseItems(types: Types, w: Forest.Types, rows: seq<Row>, nodes: seq<Option<Forest.Item>>,
                                      data: Objects, itemMap: ItemMap)
    requires Created(types, rows, nodes, data, itemMap) && forall x :: x in data ==> Loose(x)
    ensures Forest.Forest(w, data.Keys) && Placement(rows, nodes, data.Keys, |rows|)
  {
    hide FromRow, Stands;
    assert Select<Forest.Item>([], [], 0) == [];
    forall x | x in data
      ensures x.Linked(data.Keys) && x.Weighed(w)
    {
      assert Loose(x);
    }
  }
}
