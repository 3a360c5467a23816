/** Nested items in the tile store (src/iomapserialize.cpp `saveItem`, `loadItem`, `loadContainer`).

  An item is its id, its attributes, for a container the number of its children and the children
  from last to first, and an end marker.  The reader pushes every child to the front of the
  container, which undoes the reversal. */
module MapItemCodec {
  import opened Wrappers
  import opened PropStreams
  import opened ItemCodec

  datatype Tree = Leaf(data: ItemData) | Box(data: ItemData, kids: seq<Tree>)

  /** `IOMapSerialize::saveItem` */
  function SavedItem(types: Types, t: Tree): bytes
    decreases t
  {
    NumberBytes(2, t.data.id) + Serialized(types, t.data)
    + (if t.Box? then [ATTR_CONTAINER_ITEMS] + NumberBytes(4, |t.kids|) + SavedReversed(types, t.kids) else [])
    + [0]
  }

  /** The children, last one first. */
  function SavedReversed(types: Types, kids: seq<Tree>): bytes
    decreases kids
  {
    if kids == [] then [] else
      SavedItem(types, kids[|kids| - 1]) + SavedReversed(types, kids[..|kids| - 1])
  }

  /** The outcome of `IOMapSerialize::loadItem` below a container: failure, an id without an item, or
    the item with everything in it. */
  datatype LoadResult = Failure | Skipped(rest: bytes) | Loaded(tree: Tree, rest: bytes)

  function LoadedItem(types: Types, b: bytes): (r: LoadResult)
    ensures !r.Failure? ==> |r.rest| < |b|
    decreases |b|, 0
  {
    match ReadNumber(2, b)
    case None => Failure
    case Some((id, b1)) =>
      match CreateItem(types, id, 0)
      case None => Skipped(b1)
      case Some(y) =>
        ReadAttributesShrinks(types, y, b1);
        match ReadAttributes(types, y, b1)
        case Failed(_) => Failure
        case Done(x, b2, n) =>
          if types(id).container then
            match LoadedKids(types, n, [], b2)
            case None => Failure
            case Some((kids, rest)) => Loaded(Box(x, kids), rest)
          else Loaded(Leaf(x), b2)
  }

  /** `IOMapSerialize::loadContainer` with `n` children to go and `kids` already in place. */
  function LoadedKids(types: Types, n: nat, kids: seq<Tree>, b: bytes): (r: Option<(seq<Tree>, bytes)>)
    ensures r.Some? ==> |r.value.1| <= |b|
    decreases |b|, 1
  {
    if n == 0 then
      if b != [] && b[0] == 0 then Some((kids, b[1..])) else None
    else
      match LoadedItem(types, b)
      case Failure => None
      case Skipped(rest) => LoadedKids(types, n - 1, kids, rest)
      case Loaded(t, rest) => LoadedKids(types, n - 1, [t] + kids, rest)
  }

  lemma {:induction false} ReadAttributesShrinks(types: Types, x: ItemData, b: bytes)
    ensures ReadAttributes(types, x, b).Done? ==> |ReadAttributes(types, x, b).rest| <= |b|
    decreases |b|
  {
    hide WithNumber, WithText, FromLittleEndian, Signed;
    if b != [] && b[0] != 0 {
      var code, b1 := b[0], b[1..];
      if Width(code).Some? {
        if ReadNumber(Width(code).value, b1).Some? {
          var (u, rest) := ReadNumber(Width(code).value, b1).value;
          ReadAttributesShrinks(types, WithNumber(types, x, code, u), rest);
        }
      } else if IsText(code) {
        if ReadString(b1).Some? {
          var (s, rest) := ReadString(b1).value;
          ReadStringShrinks(b1);
          ReadAttributesShrinks(types, WithText(x, code, s), rest);
        }
      } else if code == ATTR_CUSTOM_ATTRIBUTES {
        if ReadNumber(8, b1).Some? {
          var (n, rest) := ReadNumber(8, b1).value;
          ReadEntriesShrinks(n, x.custom, rest);
          var (ok, custom, after) := ReadEntries(n, x.custom, rest);
          if ok { ReadAttributesShrinks(types, x.(custom := custom), after); }
        }
      }
    }
  }

  /** Trees that can be written: known ids of 16 bits, no blank custom values, a container exactly where the
    type says so, fewer children than a 32-bit count can hold. */
  ghost predicate SavableTree(types: Types, t: Tree)
    decreases t
  {
    && types(t.data.id).known && t.data.id < 0x10000 && Savable(t.data)
    && (t.Box? <==> types(t.data.id).container)
    && (t.Box? ==> |t.kids| < Pow256(4) && forall k :: k in t.kids ==> SavableTree(types, k))
  }

  /** The persisted view of an item: what `ItemCodec` says survives of its attributes. */
  function ReloadedData(types: Types, x: ItemData): ItemData {
    match CreateItem(types, x.id, 0)
    case None => x
    case Some(y) => Reloaded(types, y, x)
  }

  /** The persisted view of a tree: same shape, same order, the persisted view of every item. */
  function ReloadedTree(types: Types, t: Tree): Tree
    decreases t
  {
    match t
    case Leaf(x) => Leaf(ReloadedData(types, x))
    case Box(x, kids) => Box(ReloadedData(types, x), ReloadedKids(types, kids))
  }

  function ReloadedKids(types: Types, kids: seq<Tree>): (r: seq<Tree>)
    ensures |r| == |kids| && forall i :: 0 <= i < |kids| ==> r[i] == ReloadedTree(types, kids[i])
    decreases kids
  {
    if kids == [] then [] else
      ReloadedKids(types, kids[..|kids| - 1]) + [ReloadedTree(types, kids[|kids| - 1])]
  }

  // ---- reading back what was written ------------------------------------------------------------

  lemma {:induction false} ReloadedKeepsContainer(types: Types, x: ItemData)
    requires types(x.id).known && types(x.id).container
    ensures ReloadedData(types, x).id == x.id
  {
    hide Truncate, Signed, Pow256, WithEntries;
  }

  /** Id and attributes of a written item, up to what follows them. */
  lemma {:induction false} HeadLoads(types: Types, x: ItemData, tail: bytes)
    requires types(x.id).known && x.id < 0x10000 && Savable(x)
    ensures var b := NumberBytes(2, x.id) + (Serialized(types, x) + tail);
      && ReadNumber(2, b) == Some((x.id, Serialized(types, x) + tail))
      && ReadAttributes(types, CreateItem(types, x.id, 0).value, Serialized(types, x) + tail)
         == ReadAttributes(types, ReloadedData(types, x), tail)
  {
    NumberRoundTrip(2, x.id, Serialized(types, x) + tail);
    assert Pow256(2) == 65536 by { assert Pow256(1) == 256; }
    UnsignedRoundTrip(2, x.id);
    AttributesRoundTrip(types, CreateItem(types, x.id, 0).value, x, tail);
  }

  /** The attributes of a container end with the number of children. */
  lemma {:induction false} CountLoads(types: Types, x: ItemData, n: nat, tail: bytes)
    requires types(x.id).container && n < Pow256(4)
    ensures ReadAttributes(types, x, [ATTR_CONTAINER_ITEMS] + NumberBytes(4, n) + tail) == Done(x, tail, n)
  {
    hide Pow256, NumberBytes, Truncate;
    var b := [ATTR_CONTAINER_ITEMS] + NumberBytes(4, n) + tail;
    assert b[1..] == NumberBytes(4, n) + tail;
    NumberRoundTrip(4, n, tail);
    UnsignedRoundTrip(4, n);
  }

  /** Reading a written tree yields its persisted view, in order, and stops exactly at what follows. */
  lemma {:induction false} SavedItemLoads(types: Types, t: Tree, rest: bytes)
    requires SavableTree(types, t)
    ensures LoadedItem(types, SavedItem(types, t) + rest) == Loaded(ReloadedTree(types, t), rest)
    decreases t
  {
    hide Pow256, NumberBytes, Serialized, Reloaded, CreateItem, ReadNumber, Savable;
    var x := t.data;
    match t
    case Leaf(_) =>
      assert SavedItem(types, t) + rest == NumberBytes(2, x.id) + (Serialized(types, x) + ([0] + rest));
      HeadLoads(types, x, [0] + rest);
      KnownIsCreated(types, x.id);
      assert ([0] + rest)[1..] == rest;
    case Box(_, kids) =>
      var content := SavedReversed(types, kids) + [0] + rest;
      var tail := [ATTR_CONTAINER_ITEMS] + NumberBytes(4, |kids|) + content;
      assert SavedItem(types, t) + rest == NumberBytes(2, x.id) + (Serialized(types, x) + tail);
      HeadLoads(types, x, tail);
      KnownIsCreated(types, x.id);
      ReloadedKeepsContainer(types, x);
      CountLoads(types, ReloadedData(types, x), |kids|, content);
      SavedKidsLoad(types, kids, [], rest);
      assert ReloadedKids(types, kids) + [] == ReloadedKids(types, kids);
  }

  lemma {:induction false} KnownIsCreated(types: Types, id: nat)
    ensures CreateItem(types, id, 0).Some? <==> types(id).known
  {
  }

  lemma {:induction false} SavedKidsLoad(types: Types, kids: seq<Tree>, placed: seq<Tree>, rest: bytes)
    requires forall k :: k in kids ==> SavableTree(types, k)
    ensures LoadedKids(types, |kids|, placed, SavedReversed(types, kids) + [0] + rest)
         == Some((ReloadedKids(types, kids) + placed, rest))
    decreases kids
  {
    hide SavedItem, SavableTree, ReloadedTree;
    if kids == [] {
      assert SavedReversed(types, kids) + [0] + rest == [0] + rest;
      assert ([0] + rest)[1..] == rest;
      assert ReloadedKids(types, kids) + placed == placed;
    } else {
      var last, init := kids[|kids| - 1], kids[..|kids| - 1];
      var after := SavedReversed(types, init) + [0] + rest;
      assert SavedReversed(types, kids) + [0] + rest == SavedItem(types, last) + after;
      SavedItemLoads(types, last, after);
      SavedKidsLoad(types, init, [ReloadedTree(types, last)] + placed, rest);
      assert ReloadedKids(types, init) + ([ReloadedTree(types, last)] + placed) == ReloadedKids(types, kids) + placed;
    }
  }

  /** Every item of a tree is one that the attribute codec returns unchanged. */
  ghost predicate ExactTree(types: Types, t: Tree)
    decreases t
  {
    Exact(types, t.data) && (t.Box? ==> forall k :: k in t.kids ==> ExactTree(types, k))
  }

  /** A written tree comes back unchanged exactly when each of its items does. */
  lemma {:induction false} ReloadedTreeIsExact(types: Types, t: Tree)
    requires SavableTree(types, t)
    ensures ReloadedTree(types, t) == t <==> ExactTree(types, t)
    decreases t
  {
    hide Reloaded, Exact, CreateItem;
    ReloadedIsExact(types, t.data);
    KnownIsCreated(types, t.data.id);
    if t.Box? {
      forall i | 0 <= i < |t.kids|
        ensures ReloadedKids(types, t.kids)[i] == t.kids[i] <==> ExactTree(types, t.kids[i])
      {
        ReloadedTreeIsExact(types, t.kids[i]);
      }
      assert ReloadedKids(types, t.kids) == t.kids <==>
        forall i :: 0 <= i < |t.kids| ==> ReloadedKids(types, t.kids)[i] == t.kids[i];
    }
  }

  // ---- the stream operations --------------------------------------------------------------------

  /** `IOMapSerialize::saveItem` */
  method SaveItem(types: Types, t: Tree, stream: PropWriteStream)
    modifies stream
    ensures stream.buffer == old(stream.buffer) + SavedItem(types, t)
    decreases t
  {
    hide NumberBytes, Serialized;
    stream.Write(2, t.data.id);
    SerializeAttr(types, t.data, stream);
    ghost var head := NumberBytes(2, t.data.id) + Serialized(types, t.data);
    if t.Box? {
      stream.Write(1, ATTR_CONTAINER_ITEMS);
      OneByte(ATTR_CONTAINER_ITEMS);
      stream.Write(4, |t.kids|);
      SaveKids(types, t.kids, stream);
    }
    stream.Write(1, 0);
    OneByte(0);
  }

  /** The children, from the last to the first. */
  method SaveKids(types: Types, kids: seq<Tree>, stream: PropWriteStream)
    modifies stream
    ensures stream.buffer == old(stream.buffer) + SavedReversed(types, kids)
    decreases kids
  {
    hide SavedItem, SavedReversed;
    ghost var start := stream.buffer;
    ghost var done: bytes := [];
    assert kids[..|kids|] == kids;
    for i := |kids| downto 0
      invariant stream.buffer == start + done
      invariant done + SavedReversed(types, kids[..i]) == SavedReversed(types, kids)
    {
      SaveItem(types, kids[i], stream);
      OneFewer(types, kids, i);
      Prepended(done, SavedItem(types, kids[i]), SavedReversed(types, kids[..i]));
      Prepended(start, done, SavedItem(types, kids[i]));
      done := done + SavedItem(types, kids[i]);
    }
    NoKids(types, kids, done);
  }

  lemma {:induction false} NoKids(types: Types, kids: seq<Tree>, done: bytes)
    ensures done + SavedReversed(types, kids[..0]) == done
  {
  }

  lemma {:induction false} Prepended(a: bytes, b: bytes, c: bytes)
    ensures a + b + c == a + (b + c)
  {
  }

  lemma {:induction false} OneFewer(types: Types, kids: seq<Tree>, i: nat)
    requires i < |kids|
    ensures SavedReversed(types, kids[..i + 1]) == SavedItem(types, kids[i]) + SavedReversed(types, kids[..i])
  {
    assert kids[..i + 1][..i] == kids[..i];
  }

  /** `IOMapSerialize::loadItem` for a parent that is a container; `item` is absent when the id has no type. */
  method LoadItem(types: Types, stream: PropStream) returns (ok: bool, item: Option<Tree>)
    requires stream.Valid()
    modifies stream
    ensures stream.Valid() && stream.p >= old(stream.p) && (ok ==> stream.p > old(stream.p))
    ensures LoadedItem(types, old(stream.Rest())) ==
      if !ok then Failure else if item.None? then Skipped(stream.Rest()) else Loaded(item.value, stream.Rest())
    decreases |stream.data| - stream.p, 0
  {
    hide ReadNumber, ReadAttributes, CreateItem;
    item := None;
    var id: nat;
    ok, id := stream.Read(2);
    if !ok { return; }
    var created := CreateItem(types, id, 0);
    if created.Some? {
      var x, n;
      ok, x, n := UnserializeAttr(types, created.value, stream);
      if !ok { return; }
      if types(id).container {
        var kids;
        ok, kids := LoadContainer(types, n, stream);
        item := if ok then Some(Box(x, kids)) else None;
      } else {
        item := Some(Leaf(x));
      }
    }
  }

  /** `IOMapSerialize::loadContainer`: every child read is pushed to the front. */
  method LoadContainer(types: Types, serializationCount: nat, stream: PropStream) returns (ok: bool, kids: seq<Tree>)
    requires stream.Valid()
    modifies stream
    ensures stream.Valid() && stream.p >= old(stream.p)
    ensures LoadedKids(types, serializationCount, [], old(stream.Rest())) ==
      if ok then Some((kids, stream.Rest())) else None
    decreases |stream.data| - stream.p, 1
  {
    hide LoadedItem;
    kids := [];
    var count := serializationCount;
    while count > 0
      invariant stream.Valid() && stream.p >= old(stream.p)
      invariant LoadedKids(types, serializationCount, [], old(stream.Rest())) ==
        LoadedKids(types, count, kids, stream.Rest())
      decreases count
    {
      var item;
      ok, item := LoadItem(types, stream);
      if !ok { return; }
      if item.Some? { kids := [item.value] + kids; }
      count := count - 1;
    }
    var endAttr: nat;
    ghost var b := stream.Rest();
    ok, endAttr := stream.Read(1);
    if b != [] { FirstByte(b); }
    if !ok || endAttr != 0 { return false, kids; }
  }
}
