/** Moving and adding items between containers (src/game.cpp, src/container.cpp).

  The content of a container is described by the sequence of its stacks: id, count and attributes
  of every child, front first.  Moves and adds are specified by what they do to those sequences. */
module ItemMoves {
  import opened ItemForest

  datatype ReturnValue =
    | NoError | NotPossible | CannotPickup | ThisIsImpossible | ContainerNotEnoughRoom | NotMoveable | NotEnoughRoom

  datatype Flags = Flags(noLimit: bool, childIsOwner: bool, ignoreNotMoveable: bool, ignoreAutoStack: bool)

  const NO_FLAGS := Flags(false, false, false, false)
  const INDEX_WHEREEVER := -1
  const MAX_STACK := 100
  const MAP_MAX_LAYERS := 16

  /** `Item::equals`: same id and same attributes. */
  predicate Alike(a: Item, b: Item)
    reads a`id, a`attrs, b`id, b`attrs
  {
    a.id == b.id && a.attrs == b.attrs
  }

  /** A child that can take more of `item`. */
  predicate HasRoomFor(child: Item, item: Item)
    reads child`id, child`attrs, child`count, item`id, item`attrs
  {
    child != item && Alike(child, item) && child.count < MAX_STACK
  }

  /** The verdict of `Container::queryAdd`. Above a plain container there are only plain containers,
    which answer a child's query with no error. */
  ghost function AddVerdict(types: Types, c: Item, index: int, item: Item, flags: Flags): ReturnValue
    reads c`path, c`itemlist, item`id
  {
    if flags.childIsOwner then NoError
    else if !types(item.id).pickupable then CannotPickup
    else if item in c.path then ThisIsImpossible
    else if !flags.noLimit && index == INDEX_WHEREEVER && |c.itemlist| >= c.maxSize then ContainerNotEnoughRoom
    else NoError
  }

  /** `Container::queryAdd`: an item may not go into itself or into anything it holds. */
  method QueryAdd(types: Types, c: Item, index: int, item: Item, flags: Flags, ghost S: set<Item>)
    returns (r: ReturnValue)
    requires Linkage(S) && c in S
    ensures r == AddVerdict(types, c, index, item, flags)
    ensures r == CannotPickup <==> !flags.childIsOwner && !types(item.id).pickupable
    ensures r == ThisIsImpossible <==> !flags.childIsOwner && types(item.id).pickupable && item in c.path
    ensures r == ContainerNotEnoughRoom <==>
      (!flags.childIsOwner && types(item.id).pickupable && item !in c.path
       && !flags.noLimit && index == INDEX_WHEREEVER && |c.itemlist| >= c.maxSize)
    ensures r in {NoError, CannotPickup, ThisIsImpossible, ContainerNotEnoughRoom}
  {
    if flags.childIsOwner { return NoError; }
    if !types(item.id).pickupable { return CannotPickup; }
    if item == c {
      assert c.Linked(S);
      return ThisIsImpossible;
    }
    assert c.Linked(S);
    var cylinder := c.parent;
    while cylinder != null
      invariant cylinder != null ==> cylinder in S
      invariant item in c.path <==> cylinder != null && item in cylinder.path
      decreases if cylinder == null then 0 else |cylinder.path|
    {
      assert cylinder.Linked(S);
      if cylinder == item { return ThisIsImpossible; }
      assert cylinder.parent != null ==> cylinder.parent.Linked(S);
      cylinder := cylinder.parent;
    }
    if !flags.noLimit && index == INDEX_WHEREEVER && |c.itemlist| >= c.maxSize {
      return ContainerNotEnoughRoom;
    }
    r := NoError;
  }

  /** The free space that the stacks of `s` have for `item`. */
  function RoomIn(s: seq<Item>, item: Item): (n: nat)
    reads item, s
  {
    if s == [] then 0
    else (if HasRoomFor(s[0], item) then MAX_STACK - s[0].count else 0) + RoomIn(s[1..], item)
  }

  /** The `maxQueryCount` that `Container::queryMaxCount` reports. */
  ghost function MaxCount(types: Types, c: Item, index: int, item: Item, count: nat, flags: Flags): (m: nat)
    reads c, c.itemlist, item
  {
    var free := if |c.itemlist| <= c.maxSize then c.maxSize - |c.itemlist| else 0;
    if flags.noLimit then (if count < 1 then 1 else count)
    else if !types(item.id).stackable then free
    else
      // the query for an occupied slot does not look at the capacity
      var n :=
        if AddVerdict(types, c, 0, item, flags) != NoError then 0
        else if index == INDEX_WHEREEVER then RoomIn(c.itemlist, item)
        else if 0 <= index < |c.itemlist| && Alike(item, c.itemlist[index]) && c.itemlist[index].count < MAX_STACK then
          MAX_STACK - c.itemlist[index].count
        else 0;
      free * MAX_STACK + n
  }

  lemma {:induction false} SameInEverySlot(types: Types, c: Item, slot: nat, item: Item, flags: Flags)
    ensures AddVerdict(types, c, slot, item, flags) == AddVerdict(types, c, 0, item, flags)
  {
  }

  /** The loop of `Container::queryMaxCount` over all children. */
  method CountRoom(types: Types, c: Item, item: Item, flags: Flags, ghost S: set<Item>) returns (n: nat)
    requires Linkage(S) && c in S
    ensures n == if AddVerdict(types, c, 0, item, flags) == NoError then RoomIn(c.itemlist, item) else 0
  {
    hide AddVerdict, Linkage;
    ghost var open := AddVerdict(types, c, 0, item, flags) == NoError;
    n := 0;
    var slotIndex := 0;
    for i := 0 to |c.itemlist|
      invariant slotIndex >= 0
      invariant n == if open then RoomIn(c.itemlist, item) - RoomIn(c.itemlist[i..], item) else 0
    {
      var containerItem := c.itemlist[i];
      if HasRoomFor(containerItem, item) {
        var v := QueryAdd(types, c, slotIndex, item, flags, S);
        SameInEverySlot(types, c, slotIndex, item, flags);
        slotIndex := slotIndex + 1;
        if v == NoError {
          n := n + MAX_STACK - containerItem.count;
        }
      }
    }
  }

  /** `Container::queryMaxCount` */
  method QueryMaxCount(types: Types, c: Item, index: int, item: Item, count: nat, flags: Flags, ghost S: set<Item>)
    returns (r: ReturnValue, maxQueryCount: nat)
    requires Linkage(S) && c in S
    ensures maxQueryCount == MaxCount(types, c, index, item, count, flags)
    ensures r == NoError || r == ContainerNotEnoughRoom
    ensures r == NoError <==>
      flags.noLimit || (if types(item.id).stackable then maxQueryCount >= count else maxQueryCount > 0)
  {
    if flags.noLimit {
      return NoError, if count < 1 then 1 else count;
    }
    var freeSlots := if |c.itemlist| <= c.maxSize then c.maxSize - |c.itemlist| else 0;
    if types(item.id).stackable {
      var n := 0;
      if index == INDEX_WHEREEVER {
        n := CountRoom(types, c, item, flags, S);
      } else if 0 <= index < |c.itemlist| {
        var destItem := c.itemlist[index];
        if Alike(item, destItem) && destItem.count < MAX_STACK {
          var v := QueryAdd(types, c, index, item, flags, S);
          if v == NoError {
            n := MAX_STACK - destItem.count;
          }
        }
      }
      maxQueryCount := freeSlots * MAX_STACK + n;
      r := if maxQueryCount < count then ContainerNotEnoughRoom else NoError;
    } else {
      maxQueryCount := freeSlots;
      r := if maxQueryCount == 0 then ContainerNotEnoughRoom else NoError;
    }
  }

  /** One child of a container, as far as counting and stacking go. */
  datatype Stack = Stack(id: nat, count: nat, attrs: Attrs)

  ghost function StackOf(x: Item): Stack
    reads x`id, x`count, x`attrs
  {
    Stack(x.id, x.count, x.attrs)
  }

  ghost function Content(s: seq<Item>): (r: seq<Stack>)
    reads s
    ensures |r| == |s|
  {
    seq(|s|, i requires 0 <= i < |s| reads s => StackOf(s[i]))
  }

  /** Id and attributes of an item, without its count. */
  ghost function KindOf(x: Item): Stack
    reads x`id, x`attrs
  {
    Stack(x.id, 0, x.attrs)
  }

  /** `Container::updateThing` with the item's own id. */
  function Updated(types: Types, s: Stack, count: nat): Stack {
    var (c, attrs) := AfterSubType(types(s.id), s.count, AttrsAfterSetID(types, s.id, s.id, s.attrs), count);
    Stack(s.id, c, attrs)
  }

  /** A content whose stack at `k` gives up `m` units; a stack without units is gone. */
  function Shrunken(s: seq<Stack>, k: nat, m: nat): seq<Stack>
    requires k < |s|
  {
    if m < s[k].count then s[k := s[k].(count := s[k].count - m)] else s[..k] + s[k + 1..]
  }

  /** The part of `m` units of `x` that the stack at `t` takes, where -1 stands for no stack. */
  function Share(s: seq<Stack>, x: Stack, t: int, m: nat): (n: nat)
    requires t < |s|
    ensures n <= m
  {
    if t < 0 || s[t].id != x.id || s[t].attrs != x.attrs || s[t].count >= MAX_STACK then 0
    else if MAX_STACK - s[t].count < m then MAX_STACK - s[t].count else m
  }

  /** A content that receives `m` units of `x`: its stack at `t` is filled up, the rest is a new first stack. */
  function Grown(types: Types, s: seq<Stack>, x: Stack, t: int, m: nat): seq<Stack>
    requires t < |s|
  {
    var n := Share(s, x, t, m);
    if n < m then [x.(count := m - n)] + Filled(types, s, x, t, m) else Filled(types, s, x, t, m)
  }

  /** A stack that can take more of `x`. */
  predicate Fills(s: Stack, x: Stack) {
    s.id == x.id && s.attrs == x.attrs && s.count < MAX_STACK
  }

  /** The first stack of a content that can take more of `x`, or -1. */
  function FirstRoom(s: seq<Stack>, x: Stack): (k: int)
    ensures -1 <= k < |s|
    ensures k >= 0 ==> Fills(s[k], x)
    ensures forall j :: 0 <= j < (if k < 0 then |s| else k) ==> !Fills(s[j], x)
  {
    if s == [] then -1
    else if Fills(s[0], x) then 0
    else
      var k := FirstRoom(s[1..], x);
      if k < 0 then -1 else k + 1
  }

  /** What `Container::queryDestination` settles on: the container, the slot and the child there. */
  datatype Destination = Destination(cylinder: Item, index: int, toItem: Item?)

  /** The place of the child that a destination found, or -1. */
  function SlotOf(d: Destination): int {
    if d.toItem == null then -1 else d.index
  }

  /** The slot of a destination agrees with the child found there. */
  ghost predicate Settled(d: Destination)
    reads d.cylinder`itemlist
  {
    && d.cylinder.isContainer
    && (d.toItem != null ==> 0 <= d.index < |d.cylinder.itemlist| && d.cylinder.itemlist[d.index] == d.toItem)
    && (d.toItem == null && d.index != INDEX_WHEREEVER ==>
      d.index < d.cylinder.maxSize && !(0 <= d.index < |d.cylinder.itemlist|))
  }

  ghost function ChildAt(c: Item, i: int): (child: Item?)
    reads c`itemlist
    ensures child != null ==> 0 <= i < |c.itemlist| && c.itemlist[i] == child
  {
    if 0 <= i < |c.itemlist| then c.itemlist[i] else null
  }

  /** The verdict of `Container::queryDestination`: up, down into a child container, or a slot of `c`;
    a stack joins the slot asked for if it can, and otherwise the first stack with room. */
  ghost function Chosen(types: Types, c: Item, index: int, item: Item, flags: Flags): Destination
    reads *
  {
    var i := if index == 255 || index >= c.maxSize then INDEX_WHEREEVER else index;
    var child := ChildAt(c, i);
    var k := FirstRoom(Content(c.itemlist), StackOf(item));
    if index == 254 then Destination(if c.parent != null then c.parent else c, INDEX_WHEREEVER, null)
    else if child != null && child.isContainer then Destination(child, INDEX_WHEREEVER, null)
    else if !flags.ignoreAutoStack && types(item.id).stackable && item.parent != c && k >= 0
            && !(child != null && Alike(child, item) && child.count < MAX_STACK) then Destination(c, k, c.itemlist[k])
    else Destination(c, i, child)
  }

  /** The index names a child of `c` that is a container. */
  ghost predicate NamesBag(c: Item, index: int)
    reads c`itemlist
  {
    index != 254 && index != 255 && 0 <= index < c.maxSize && index < |c.itemlist| && c.itemlist[index].isContainer
  }

  /** The index asks for a slot that the container has. */
  predicate AsksForSlot(c: Item, index: int) {
    index != 254 && index != 255 && index != INDEX_WHEREEVER && index < c.maxSize
  }

  /** The stack `item` comes from elsewhere and may be joined with others. */
  ghost predicate MayStack(types: Types, c: Item, item: Item, flags: Flags)
    reads item`id, item`parent
  {
    !flags.ignoreAutoStack && types(item.id).stackable && item.parent != c
  }

  lemma {:induction false} RoomThere(s: seq<Item>, item: Item, k: nat)
    requires k < |s| && HasRoomFor(s[k], item)
    ensures RoomIn(s, item) > 0
  {
    if k > 0 {
      assert s[1..][k - 1] == s[k];
      RoomThere(s[1..], item, k - 1);
    }
  }

  lemma {:induction false} NoRoomLeft(s: seq<Item>, item: Item)
    requires item !in s && FirstRoom(Content(s), StackOf(item)) < 0
    ensures RoomIn(s, item) == 0
  {
    if s != [] {
      assert Content(s)[0] == StackOf(s[0]) && Content(s)[1..] == Content(s[1..]);
      NoRoomLeft(s[1..], item);
    }
  }

  /** 254 goes up, an index whose child is a container goes into that child, and everything else stays here.  A stack that
    may be joined goes to the child asked for if that has room, and otherwise to the first one that has; anything
    else goes to the slot asked for. */
  ghost predicate Directed(types: Types, c: Item, index: int, item: Item, flags: Flags, d: Destination)
    reads c, c.itemlist, item
  {
    && (index == 254 ==> d == Destination(if c.parent != null then c.parent else c, INDEX_WHEREEVER, null))
    && (NamesBag(c, index) ==> d == Destination(c.itemlist[index], INDEX_WHEREEVER, null))
    && (index != 254 && !NamesBag(c, index) ==>
          d.cylinder == c && if MayStack(types, c, item, flags) && RoomIn(c.itemlist, item) > 0
                             then JoinedAt(c, index, item, d) else SlotAt(c, index, d))
  }

  ghost predicate SlotAt(c: Item, index: int, d: Destination)
    reads c`itemlist
  {
    && d.index == (if AsksForSlot(c, index) then index else INDEX_WHEREEVER)
    && d.toItem == (if AsksForSlot(c, index) then ChildAt(c, index) else null)
  }

  ghost predicate JoinedAt(c: Item, index: int, item: Item, d: Destination)
    reads c, c.itemlist, item
  {
    && 0 <= d.index < |c.itemlist| && d.toItem == c.itemlist[d.index] && HasRoomFor(d.toItem, item)
    && if AsksForSlot(c, index) && ChildAt(c, index) != null && HasRoomFor(ChildAt(c, index), item) then d.index == index
       else forall j :: 0 <= j < d.index ==> !HasRoomFor(c.itemlist[j], item)
  }

  lemma {:induction false} ChosenIs(types: Types, c: Item, index: int, item: Item, flags: Flags, S: set<Item>)
    requires Linkage(S) && c in S && c.isContainer
    ensures Directed(types, c, index, item, flags, Chosen(types, c, index, item, flags))
  {
    assert c.Linked(S);
    var k := FirstRoom(Content(c.itemlist), StackOf(item));
    if item.parent != c {
      if k < 0 {
        NoRoomLeft(c.itemlist, item);
      } else {
        assert Content(c.itemlist)[k] == StackOf(c.itemlist[k]);
        RoomThere(c.itemlist, item, k);
        forall j | 0 <= j < k
          ensures !HasRoomFor(c.itemlist[j], item)
        {
          assert Content(c.itemlist)[j] == StackOf(c.itemlist[j]);
        }
      }
    }
    hide RoomIn, FirstRoom, Content, Linkage;
  }

  /** `Container::queryDestination` */
  method QueryDestination(types: Types, c: Item, index: int, item: Item, flags: Flags, ghost S: set<Item>)
    returns (d: Destination)
    requires Linkage(S) && c in S && c.isContainer
    ensures Directed(types, c, index, item, flags, d)
    ensures d == Chosen(types, c, index, item, flags)
    ensures d.cylinder in S && Settled(d)
    ensures d.cylinder != c ==> d.index == INDEX_WHEREEVER && d.toItem == null && index != INDEX_WHEREEVER
    ensures index == 254 ==> d.index == INDEX_WHEREEVER && d.toItem == null
    ensures index == INDEX_WHEREEVER && d.toItem == null ==> d.index == INDEX_WHEREEVER
    ensures index == INDEX_WHEREEVER && d.toItem != null ==>
      !flags.ignoreAutoStack && types(item.id).stackable && HasRoomFor(d.toItem, item)
    ensures d.cylinder == c && index != 254 && !flags.ignoreAutoStack && types(item.id).stackable ==>
      (item.parent != c && (d.toItem == null || !HasRoomFor(d.toItem, item)) ==> RoomIn(c.itemlist, item) == 0)
  {
    hide Directed;
    ChosenIs(types, c, index, item, flags, S);
    assert c.Linked(S);
    if index == 254 {
      return Destination(if c.parent != null then c.parent else c, INDEX_WHEREEVER, null);
    }
    var i := if index == 255 || index >= c.maxSize then INDEX_WHEREEVER else index;
    var destItem: Item? := null;
    if i != INDEX_WHEREEVER {
      if 0 <= i < |c.itemlist| {
        destItem := c.itemlist[i];
      }
      if destItem != null && destItem.isContainer {
        return Destination(destItem, INDEX_WHEREEVER, null);
      }
    }
    if !flags.ignoreAutoStack && types(item.id).stackable && item.parent != c {
      if destItem != null && Alike(destItem, item) && destItem.count < MAX_STACK {
        return Destination(c, i, destItem);
      }
      for n := 0 to |c.itemlist|
        invariant RoomIn(c.itemlist[n..], item) == RoomIn(c.itemlist, item)
        invariant forall j :: 0 <= j < n ==> !Fills(Content(c.itemlist)[j], StackOf(item))
      {
        var listItem := c.itemlist[n];
        assert Content(c.itemlist)[n] == StackOf(listItem);
        if HasRoomFor(listItem, item) {
          return Destination(c, n, listItem);
        }
      }
    }
    d := Destination(c, i, destItem);
  }

  /** How many of an item type a content holds. */
  function Count(id: nat, s: seq<Stack>): nat {
    if s == [] then 0 else (if s[0].id == id then s[0].count else 0) + Count(id, s[1..])
  }

  lemma {:induction false} CountInsert(id: nat, s: seq<Stack>, k: nat, x: Stack)
    requires k <= |s|
    ensures Count(id, s[..k] + [x] + s[k..]) == Count(id, s) + (if x.id == id then x.count else 0)
  {
    if k == 0 {
      assert s[..0] + [x] + s[0..] == [x] + s;
    } else {
      assert (s[..k] + [x] + s[k..])[1..] == s[1..][..k - 1] + [x] + s[1..][k - 1..];
      CountInsert(id, s[1..], k - 1, x);
    }
  }

  lemma {:induction false} CountWithout(id: nat, s: seq<Stack>, k: nat)
    requires k < |s|
    ensures Count(id, s) == Count(id, s[..k] + s[k + 1..]) + (if s[k].id == id then s[k].count else 0)
  {
    var t := s[..k] + s[k + 1..];
    assert t[..k] == s[..k] && t[k..] == s[k + 1..];
    assert s == s[..k] + [s[k]] + s[k + 1..];
    CountInsert(id, t, k, s[k]);
  }

  lemma {:induction false} CountUpdate(id: nat, s: seq<Stack>, k: nat, x: Stack)
    requires k < |s| && s[k].id == x.id
    ensures Count(id, s[k := x]) == Count(id, s) + (if x.id == id then x.count - s[k].count else 0)
  {
    CountWithout(id, s, k);
    CountWithout(id, s[k := x], k);
    assert s[k := x][..k] + s[k := x][k + 1..] == s[..k] + s[k + 1..];
  }

  /** No content but that of `c` changed between the two states. */
  twostate predicate OthersKept(S: set<Item>, c: Item)
    reads *
  {
    forall x :: x in S && x != c ==> Content(x.itemlist) == old(Content(x.itemlist))
  }

  /** Between the two states `item`, or parts of it, joined `c`, and the forest grew from `S` to `T`: all other items
    stay where they are, no stack shrinks, and only those of its kind grow. */
  twostate predicate Joined(S: set<Item>, new T: set<Item>, c: Item, item: Item)
    reads *
  {
    && (forall x :: x in S && x != item ==> x.parent == old(x.parent))
    && (forall x :: x in S && x != c ==> x.itemlist == old(x.itemlist))
    && (forall x :: x in S ==> x.id == old(x.id) && x.count >= old(x.count))
    && (forall x :: x in S && old(x.id) != old(item.id) ==> x.count == old(x.count) && x.attrs == old(x.attrs))
    && (forall x :: x in T - S ==> !x.isContainer)
  }

  /** Between the two states only `from` and `to` changed their children, only `item` may have changed its parent, and only
    `item` and `toItem` their counts and attributes. */
  twostate predicate Rearranged(S: set<Item>, from: Item, to: Item, item: Item, toItem: Item?)
    reads *
  {
    && (forall x :: x in S && x != from && x != to ==> x.itemlist == old(x.itemlist))
    && (forall x :: x in S && x != item ==> x.parent == old(x.parent))
    && (forall x :: x in S && x != item && x != toItem ==> StackOf(x) == old(StackOf(x)))
  }

  /** How an item lies in the forest. */
  datatype Face = Face(parent: Item?, id: nat, count: nat, attrs: Attrs, list: seq<Item>)

  ghost function Faces(S: set<Item>): (r: map<Item, Face>)
    reads S
    ensures r.Keys == S
  {
    map x | x in S :: Face(x.parent, x.id, x.count, x.attrs, x.itemlist)
  }

  /** The same of the faces before and after. */
  ghost predicate OnlyMoved(a: map<Item, Face>, b: map<Item, Face>, from: Item, to: Item, item: Item, toItem: Item?) {
    && a.Keys == b.Keys
    && (forall x :: x in a && x != from && x != to ==> b[x].list == a[x].list)
    && (forall x :: x in a && x != item ==> b[x].parent == a[x].parent)
    && (forall x :: x in a && x != item && x != toItem ==>
          b[x].id == a[x].id && b[x].count == a[x].count && b[x].attrs == a[x].attrs)
  }

  /** Of the stack `item` of `from`, `m` units have left, and all of them once there are no more; `toItem` has taken what it
    can of them, if it is like `item`. */
  ghost predicate UnitsMoved(a: map<Item, Face>, b: map<Item, Face>, from: Item, item: Item, toItem: Item?, m: nat) {
    && item in a && item in b && (toItem != null ==> toItem in a && toItem in b)
    && (if m < a[item].count then b[item].parent == from && b[item].count == a[item].count - m else b[item].parent == null)
    && (toItem != null ==>
          && b[toItem].id == a[toItem].id
          && var like := a[item].id == a[toItem].id && a[item].attrs == a[toItem].attrs;
             var room := MAX_STACK - a[toItem].count;
             b[toItem].count == a[toItem].count + (if !like then 0 else if room < m then room else m))
  }

  twostate lemma {:induction false} FacesMoved(new S: set<Item>, new from: Item, new to: Item, new item: Item,
                                               new toItem: Item?)
    requires old(allocated(S)) && old(allocated(from)) && old(allocated(to)) && old(allocated(item))
    requires old(allocated(toItem)) && Rearranged(S, from, to, item, toItem)
    ensures OnlyMoved(old(Faces(S)), Faces(S), from, to, item, toItem)
  {
    forall x | x in S && x != item && x != toItem
      ensures x.id == old(x.id) && x.count == old(x.count) && x.attrs == old(x.attrs)
    {
      assert StackOf(x) == old(StackOf(x));
    }
  }

  twostate lemma {:induction false} UnitsAreMoved(new S: set<Item>, new from: Item, new item: Item, new toItem: Item?,
                                                  new m: nat)
    requires old(allocated(S)) && old(allocated(from)) && old(allocated(item))
    requires old(allocated(toItem)) && item in S && (toItem != null ==> toItem in S)
    requires FilledUp(toItem, item, m) && LeftWith(from, item, m)
    ensures UnitsMoved(old(Faces(S)), Faces(S), from, item, toItem, m)
  {
  }

  /** The whole `item` went from `from` to the first place of `to`. */
  ghost predicate ItemMoved(a: map<Item, Face>, b: map<Item, Face>, from: Item, to: Item, item: Item) {
    && {from, to, item} <= a.Keys && {from, to, item} <= b.Keys && b[item].parent == to
    && b[item].id == a[item].id && b[item].count == a[item].count && b[item].attrs == a[item].attrs
    && Rehung(a[from].list, a[to].list, b[from].list, b[to].list, item, from == to, IndexOf(a[from].list, item))
  }

  twostate lemma {:induction false} ItemIsMoved(new S: set<Item>, new from: Item, new to: Item, new item: Item)
    requires old(allocated(S)) && old(allocated(from)) && old(allocated(to)) && old(allocated(item))
    requires from in S && to in S && item in S && item.parent == to && StackOf(item) == old(StackOf(item))
    requires Rehung(old(from.itemlist), old(to.itemlist), from.itemlist, to.itemlist, item, from == to,
                    old(IndexOf(from.itemlist, item)))
    ensures ItemMoved(old(Faces(S)), Faces(S), from, to, item)
  {
    hide Rehung;
  }

  lemma {:induction false} NobodyMoved(a: map<Item, Face>, from: Item, to: Item, item: Item, toItem: Item?)
    ensures OnlyMoved(a, a, from, to, item, toItem)
  {
  }

  /** `toItem` has taken what it can of `m` units, if it is like `item`. */
  twostate predicate FilledUp(toItem: Item?, item: Item, m: nat)
    reads *
  {
    toItem != null ==>
      && toItem.id == old(toItem.id)
      && var room := MAX_STACK - old(toItem.count);
         toItem.count == old(toItem.count) + (if !old(Alike(item, toItem)) then 0 else if room < m then room else m)
  }

  /** Between the two states `c` gained `d` of type `id`, and no other content changed. */
  twostate predicate Gained(S: set<Item>, c: Item, id: nat, d: int)
    reads *
  {
    && (forall k :: Count(k, Content(c.itemlist)) == old(Count(k, Content(c.itemlist))) + (if k == id then d else 0))
    && OthersKept(S, c)
  }

  /** What changes of single items mean for the contents of a forest: only the parent is touched. */
  twostate lemma {:induction false} OthersKeepContent(new S: set<Item>, new c: Item, new item: Item)
    requires old(allocated(S)) && old(allocated(c)) && old(allocated(item))
    requires old(Linkage(S)) && c in S && item in S && (old(item.parent) == c || old(item.parent) == null)
    requires forall x :: x in S && x != c ==> x.itemlist == old(x.itemlist)
    requires forall y :: y in S && y != item ==> StackOf(y) == old(StackOf(y))
    ensures forall x :: x in S && x != c ==> Content(x.itemlist) == old(Content(x.itemlist))
  {
    forall x | x in S && x != c
      ensures Content(x.itemlist) == old(Content(x.itemlist))
    {
      assert old(x.Linked(S));
    }
  }

  twostate lemma {:induction false} GainedInPlace(new S: set<Item>, new c: Item, new item: Item, new k: nat)
    requires old(allocated(S)) && old(allocated(c)) && old(allocated(item))
    requires old(Linkage(S)) && c in S && item in S && k < |c.itemlist| && c.itemlist[k] == item
    requires unchanged(S`itemlist) && forall y :: y in S && y != item ==> StackOf(y) == old(StackOf(y))
    requires item.id == old(item.id)
    ensures Gained(S, c, item.id, item.count - old(item.count))
    ensures Content(c.itemlist) == old(Content(c.itemlist))[k := StackOf(item)]
  {
    assert old(c.Linked(S));
    OthersKeepContent(S, c, item);
    var s := old(Content(c.itemlist));
    assert s[k] == old(StackOf(item));
    assert Content(c.itemlist) == s[k := StackOf(item)];
    forall id { CountUpdate(id, s, k, StackOf(item)); }
  }

  twostate lemma {:induction false} GainedByRemoval(new S: set<Item>, new c: Item, new item: Item, new k: nat)
    requires old(allocated(S)) && old(allocated(c)) && old(allocated(item))
    requires old(Linkage(S)) && c in S && item in S && k < |old(c.itemlist)| && old(c.itemlist)[k] == item
    requires c.itemlist == old(c.itemlist)[..k] + old(c.itemlist)[k + 1..]
    requires forall x :: x in S && x != c ==> x.itemlist == old(x.itemlist)
    requires forall y :: y in S ==> StackOf(y) == old(StackOf(y))
    ensures Gained(S, c, item.id, -(item.count as int))
    ensures var s := old(Content(c.itemlist)); Content(c.itemlist) == s[..k] + s[k + 1..]
  {
    assert old(c.Linked(S));
    OthersKeepContent(S, c, item);
    var s := old(Content(c.itemlist));
    assert Content(c.itemlist) == s[..k] + s[k + 1..];
    forall id { CountWithout(id, s, k); }
  }

  twostate lemma {:induction false} GainedByPush(new S: set<Item>, new c: Item, new item: Item)
    requires old(allocated(S)) && old(allocated(c)) && old(allocated(item))
    requires old(Linkage(S)) && c in S && item in S && old(item.parent) == null
    requires c.itemlist == [item] + old(c.itemlist)
    requires forall x :: x in S && x != c ==> x.itemlist == old(x.itemlist)
    requires forall y :: y in S ==> StackOf(y) == old(StackOf(y))
    ensures Gained(S, c, item.id, item.count)
    ensures Content(c.itemlist) == [StackOf(item)] + old(Content(c.itemlist))
  {
    assert old(c.Linked(S));
    OthersKeepContent(S, c, item);
    var s := old(Content(c.itemlist));
    assert Content(c.itemlist) == s[..0] + [StackOf(item)] + s[0..];
    forall id { CountInsert(id, s, 0, StackOf(item)); }
  }

  /** Stacks hold 1 to 100, and a container is never a stack. */
  ghost predicate WellStocked(types: Types, S: set<Item>)
    reads S`id, S`count, S`parent
  {
    forall x {:trigger Stocked(types, x)} :: x in S ==> Stocked(types, x)
  }

  ghost predicate Stocked(types: Types, x: Item)
    reads x`id, x`count, x`parent
  {
    && (x.isContainer ==> !types(x.id).stackable)
    && (x.parent != null && types(x.id).stackable ==> 1 <= x.count <= MAX_STACK)
  }

  /** No item type is both a stack and a fluid. */
  ghost predicate TypesOk(types: Types) {
    forall id :: types(id).stackable ==> !types(id).fluid
  }

  twostate lemma {:induction false} ContentShrunk(new c: Item, new item: Item, new k: nat, new n: nat)
    requires old(allocated(c)) && old(allocated(item))
    requires k < |old(c.itemlist)| && old(c.itemlist)[k] == item && n < old(item.count)
    requires Content(c.itemlist) == old(Content(c.itemlist))[k := StackOf(item)]
    requires item.id == old(item.id) && item.attrs == old(item.attrs) && item.count == old(item.count) - n
    ensures Content(c.itemlist) == Shrunken(old(Content(c.itemlist)), k, n)
  {
    assert old(Content(c.itemlist))[k] == old(StackOf(item));
  }

  /** A stack of `c` shrinks by `n` in place. */
  method ShrinkStack(types: Types, c: Item, item: Item, n: nat, ghost S: set<Item>) returns (ghost k: nat)
    requires TypesOk(types) && Forest(types, S) && WellStocked(types, S)
    requires c in S && item in S && c.isContainer && item in c.itemlist
    requires types(item.id).stackable && 1 <= n < item.count
    modifies c`itemlist, item`parent, item`count, S`path, S`totalWeight
    ensures Forest(types, S) && WellStocked(types, S)
    ensures k < |c.itemlist| && c.itemlist[k] == item && c.itemlist == old(c.itemlist)
    ensures item.count == old(item.count) - n && item.parent == c
    ensures Gained(S, c, item.id, -(n as int))
    ensures k == old(IndexOf(c.itemlist, item)) && Content(c.itemlist) == old(Content(c.itemlist))[k := StackOf(item)]
    ensures forall x :: x in S ==> x.path == old(x.path)
  {
    assert Linkage(S) && c.Linked(S) && item.Linked(S) && Stocked(types, item);
    assert (item.count - n) % 0x100 == item.count - n;
    hide Forest, Linkage, TakenOut, TotalsShifted, Content, Count, Weights, Sum;
    ghost var index := c.RemoveThing(types, item, n, S);
    k := index;
    GainedInPlace(S, c, item, k);
    forall x | x in S
      ensures Stocked(types, x)
    {
      assert old(Stocked(types, x));
    }
  }

  /** `c` gives up the child `item` as a whole. */
  method TakeWhole(types: Types, c: Item, item: Item, n: nat, ghost S: set<Item>) returns (ghost k: nat)
    requires Forest(types, S) && WellStocked(types, S)
    requires c in S && item in S && c.isContainer && item in c.itemlist
    requires types(item.id).stackable ==> n == item.count
    modifies c`itemlist, item`parent, item`count, S`path, S`totalWeight
    ensures Forest(types, S) && WellStocked(types, S)
    ensures k < |old(c.itemlist)| && old(c.itemlist)[k] == item
    ensures item.count == old(item.count) && item.parent == null
    ensures c.itemlist == old(c.itemlist[..k] + c.itemlist[k + 1..])
    ensures forall y :: y in old(c.itemlist) && y != item ==> y in c.itemlist
    ensures Gained(S, c, item.id, -(item.count as int))
    ensures k == old(IndexOf(c.itemlist, item))
    ensures var s := old(Content(c.itemlist)); Content(c.itemlist) == s[..k] + s[k + 1..]
    ensures forall x :: x in S && item !in old(x.path) ==> x.path == old(x.path)
  {
    assert Linkage(S) && c.Linked(S) && item.Linked(S);
    ghost var all := c.itemlist;
    hide Forest, Linkage, Shrunk, Disowned, TotalsShifted, Content, Count, Weights, Sum;
    ghost var index := c.RemoveThing(types, item, n, S);
    k := index;
    GainedByRemoval(S, c, item, k);
    Without(all, k);
    forall x | x in S
      ensures Stocked(types, x)
    {
      assert old(Stocked(types, x));
    }
  }

  lemma {:induction false} UpdatedStack(types: Types, s: Stack, n: nat)
    requires TypesOk(types) && types(s.id).stackable && n <= MAX_STACK
    ensures Updated(types, s, n).id == s.id && Updated(types, s, n).count == n
  {
  }

  /** A stack of `c` grows by `n` in place. */
  method GrowStack(types: Types, c: Item, toItem: Item, n: nat, ghost k: nat, ghost S: set<Item>)
    requires TypesOk(types) && Forest(types, S) && WellStocked(types, S)
    requires c in S && toItem in S && c.isContainer && k < |c.itemlist| && c.itemlist[k] == toItem
    requires types(toItem.id).stackable && toItem.count + n <= MAX_STACK
    modifies toItem`id, toItem`attrs, toItem`count, S`totalWeight
    ensures Forest(types, S) && WellStocked(types, S)
    ensures toItem.id == old(toItem.id) && toItem.count == old(toItem.count) + n
    ensures Gained(S, c, toItem.id, n) && OthersKept(S, c)
    ensures Content(c.itemlist) ==
      old(Content(c.itemlist))[k := Updated(types, old(StackOf(toItem)), old(toItem.count) + n)]
  {
    assert Linkage(S) && c.Linked(S) && Stocked(types, toItem) && toItem in c.itemlist && toItem.parent == c;
    UpdatedStack(types, StackOf(toItem), toItem.count + n);
    hide Forest, Linkage, TotalsShifted, Content, Count, Weights, Sum, AttrsAfterSetID, AfterSubType;
    c.UpdateThing(types, toItem, toItem.id, toItem.count + n, S);
    assert StackOf(toItem) == Updated(types, old(StackOf(toItem)), old(toItem.count) + n);
    hide Updated;
    GainedInPlace(S, c, toItem, k);
    forall x | x in S
      ensures Stocked(types, x)
    {
      assert old(Stocked(types, x));
    }
  }

  /** A loose item becomes the first child of `c`. */
  method PutInto(types: Types, c: Item, index: int, item: Item, ghost S: set<Item>)
    requires Forest(types, S) && WellStocked(types, S)
    requires c in S && item in S && c.isContainer && item.parent == null && item !in c.path
    requires index < c.maxSize
    requires types(item.id).stackable ==> 1 <= item.count <= MAX_STACK
    modifies c`itemlist, item`parent, S`path, S`totalWeight
    ensures Forest(types, S) && WellStocked(types, S)
    ensures item.parent == c && c.itemlist == [item] + old(c.itemlist)
    ensures Gained(S, c, item.id, item.count) && Content(c.itemlist) == [StackOf(item)] + old(Content(c.itemlist))
  {
    assert Linkage(S);
    hide Forest, Adopted, TotalsShifted;
    c.AddThing(types, index, item, S);
    GainedByPush(S, c, item);
    forall x | x in S
      ensures Stocked(types, x)
    {
      assert old(Stocked(types, x));
    }
  }

  /** `Item::clone` followed by `setItemCount`, for an item that is not a container. */
  method CloneStack(types: Types, item: Item, count: nat, ghost S: set<Item>) returns (copy: Item)
    requires Forest(types, S) && WellStocked(types, S) && item in S && !item.isContainer
    ensures fresh(copy) && !copy.isContainer && copy.parent == null && copy.path == [copy]
    ensures copy.id == item.id && copy.attrs == item.attrs && copy.count == count % 0x100
    ensures Forest(types, S + {copy}) && WellStocked(types, S + {copy})
  {
    copy := new Item(false, 0, item.id, count % 0x100, item.attrs);
    LooseItemJoins(types, S, copy);
  }

  /** A new item without links can be added to the forest. */
  lemma {:induction false} LooseItemJoins(types: Types, S: set<Item>, x: Item)
    requires Forest(types, S) && WellStocked(types, S) && x !in S
    requires x.parent == null && x.itemlist == [] && x.totalWeight == 0 && x.path == [x] && !x.isContainer
    ensures Forest(types, S + {x}) && WellStocked(types, S + {x})
  {
    forall y | y in S
      ensures y.Linked(S + {x}) && y.Weighed(types) && Stocked(types, y)
    {
      assert y.Linked(S) && y.Weighed(types) && Stocked(types, y);
    }
    assert x.Linked(S + {x}) && x.Weighed(types);
  }

  /** Between the two states `m` of type `id` went from `from` to `to`, and no other content changed. */
  twostate predicate Passed(S: set<Item>, from: Item, to: Item, id: nat, m: nat)
    reads *
  {
    && (from == to ==> forall k :: Count(k, Content(to.itemlist)) == old(Count(k, Content(to.itemlist))))
    && (from != to ==> forall k ::
          Count(k, Content(to.itemlist)) == old(Count(k, Content(to.itemlist))) + (if k == id then m else 0))
    && (from != to ==> forall k ::
          Count(k, Content(from.itemlist)) == old(Count(k, Content(from.itemlist))) - (if k == id then m else 0))
    && (forall x :: x in S && x != from && x != to ==> Content(x.itemlist) == old(Content(x.itemlist)))
  }

  /** `t` is the place of `toItem` in `to`, or -1 without it. */
  ghost predicate PlaceOf(to: Item, toItem: Item?, t: int)
    reads to`itemlist
  {
    if toItem == null then t == -1 else 0 <= t < |to.itemlist| && to.itemlist[t] == toItem
  }

  /** A content whose stack at `t` takes what it can of `m` units of `x`. */
  function Filled(types: Types, s: seq<Stack>, x: Stack, t: int, m: nat): (r: seq<Stack>)
    requires t < |s|
    ensures |r| == |s|
  {
    if t >= 0 && s[t].id == x.id && s[t].attrs == x.attrs
    then s[t := Updated(types, s[t], s[t].count + Share(s, x, t, m))] else s
  }

  /** As much of `m` units of `item` as `toItem` can take is merged into it. */
  method Merge(types: Types, to: Item, toItem: Item?, item: Item, m: nat, ghost t: int, ghost S: set<Item>)
    returns (n: nat)
    requires TypesOk(types) && Forest(types, S) && WellStocked(types, S)
    requires to in S && item in S && to.isContainer && types(item.id).stackable
    requires toItem != null ==> toItem in S && toItem != item
    requires PlaceOf(to, toItem, t)
    modifies S`id, S`attrs, S`count, S`totalWeight
    ensures Forest(types, S) && WellStocked(types, S)
    ensures n == Share(old(Content(to.itemlist)), old(KindOf(item)), t, m)
    ensures toItem != null && old(Alike(item, toItem)) ==> n == m || n == MAX_STACK - old(toItem.count)
    ensures (toItem == null || old(!Alike(item, toItem))) ==> n == 0
    ensures Content(to.itemlist) == Filled(types, old(Content(to.itemlist)), old(KindOf(item)), t, m)
    ensures Gained(S, to, item.id, n) && StackOf(item) == old(StackOf(item))
    ensures Rearranged(S, to, to, item, toItem) && FilledUp(toItem, item, m)
  {
    n := 0;
    if toItem != null {
      assert to.Linked(S) && Stocked(types, toItem);
      assert Content(to.itemlist)[t] == StackOf(toItem);
      assert Alike(item, toItem) ==> toItem.count <= MAX_STACK;
    }
    if toItem != null && Alike(item, toItem) {
      n := if MAX_STACK - toItem.count < m then MAX_STACK - toItem.count else m;
      hide Forest, Linkage, WellStocked, Count, Content, Updated;
      GrowStack(types, to, toItem, n, t, S);
    }
  }

  lemma {:induction false} StackIsLeaf(types: Types, S: set<Item>, item: Item)
    requires WellStocked(types, S) && item in S && types(item.id).stackable
    ensures !item.isContainer
  {
    assert Stocked(types, item);
  }

  /** A copy of the stack `item` with `count` units becomes the first child of `to`. */
  method AddCopy(types: Types, to: Item, index: int, item: Item, count: nat, ghost S: set<Item>)
    returns (copy: Item, ghost T: set<Item>)
    requires Forest(types, S) && WellStocked(types, S)
    requires to in S && item in S && to.isContainer && types(item.id).stackable && 1 <= count <= MAX_STACK
    requires index < to.maxSize
    modifies to`itemlist, S`path, S`totalWeight
    ensures S <= T && fresh(T - S) && Forest(types, T) && WellStocked(types, T)
    ensures Gained(S, to, item.id, count)
    ensures Content(to.itemlist) == [KindOf(item).(count := count)] + old(Content(to.itemlist))
    ensures fresh(copy) && copy.parent == to && to.itemlist == [copy] + old(to.itemlist)
  {
    PathStays(S, to);
    StackIsLeaf(types, S, item);
    hide Forest, Linkage, WellStocked, Stocked, Count, Content;
    copy := CloneStack(types, item, count, S);
    T := S + {copy};
    PutInto(types, to, index, copy, T);
  }

  /** `to` receives `m` units of the stack `item`: what `toItem` can take is merged into it, the rest
    becomes a new first child. */
  method Receive(types: Types, to: Item, index: int, toItem: Item?, item: Item, m: nat, ghost t: int, ghost S: set<Item>)
    returns (moveItem: Item?, ghost T: set<Item>)
    requires TypesOk(types) && Forest(types, S) && WellStocked(types, S)
    requires to in S && item in S && to.isContainer && types(item.id).stackable && 1 <= m <= MAX_STACK
    requires toItem != null ==> toItem in S && toItem != item
    requires PlaceOf(to, toItem, t)
    requires toItem == null || !Alike(item, toItem) || MAX_STACK - toItem.count < m ==>
      index < to.maxSize && |to.itemlist| < to.maxSize
    modifies S
    ensures S <= T && fresh(T - S) && Forest(types, T) && WellStocked(types, T)
    ensures Gained(S, to, old(item.id), m) && item.id == old(item.id)
    ensures Content(to.itemlist) == Grown(types, old(Content(to.itemlist)), old(KindOf(item)), t, m)
    ensures Rearranged(S, to, to, item, toItem) && FilledUp(toItem, item, m)
    ensures StackOf(item) == old(StackOf(item)) && item.parent == old(item.parent)
    ensures |to.itemlist| <= |old(to.itemlist)| || |to.itemlist| <= to.maxSize
  {
    hide Forest, WellStocked, Count, Content, Filled, Share;
    moveItem, T := null, S;
    var n := Merge(types, to, toItem, item, m, t, S);
    if m - n > 0 {
      moveItem, T := AddCopy(types, to, index, item, m - n, S);
    }
  }

  lemma {:induction false} PathStays(S: set<Item>, x: Item)
    requires Linkage(S) && x in S
    ensures forall y :: y in x.path ==> y in S
  {
    forall y | y in x.path
      ensures y in S
    {
      PathIsSuffix(S, x, y);
    }
  }

  /** Where the child at `t` is once the stack at `k` gave up `m` units: when the stack is gone, the ones
    behind it move up. */
  function Behind(s: seq<Stack>, k: nat, m: nat, t: int): (u: int)
    requires k < |s| && t < |s| && t != k
    ensures t < 0 ==> u == t
    ensures u < |Shrunken(s, k, m)|
  {
    if t > k && m >= s[k].count then t - 1 else t
  }

  /** The contents of source and destination before a move. */
  datatype Before = Before(from: seq<Stack>, to: seq<Stack>, kind: Stack)

  ghost function BeforeMove(from: Item, to: Item, item: Item): Before
    reads *
  {
    Before(Content(from.itemlist), Content(to.itemlist), KindOf(item))
  }

  /** `m` units of the stack at `k` of the source went to the destination, whose stack at `t` was filled up first;
    `from` and `to` are the contents now. */
  ghost predicate Relocated(types: Types, b: Before, from: seq<Stack>, to: seq<Stack>, within: bool, k: int, t: int,
                            m: nat) {
    && 0 <= k < |b.from| && t < |b.to| && (within ==> t != k && b.from == b.to)
    && if within then to == Grown(types, Shrunken(b.from, k, m), b.kind, Behind(b.from, k, m, t), m)
       else from == Shrunken(b.from, k, m) && to == Grown(types, b.to, b.kind, t, m)
  }

  /** A stack that has given up `m` units is smaller, or loose when these were all. */
  twostate predicate LeftWith(from: Item, item: Item, m: nat)
    reads *
  {
    if m < old(item.count) then item.parent == from && item.count == old(item.count) - m else item.parent == null
  }

  /** `from` gives up `m` units of its stack `item`; `u` is where its child at `t` is then. */
  method GiveUp(types: Types, from: Item, item: Item, m: nat, ghost t: int, ghost S: set<Item>) returns (ghost u: int)
    requires TypesOk(types) && Forest(types, S) && WellStocked(types, S)
    requires from in S && item in S && from.isContainer && item in from.itemlist && types(item.id).stackable
    requires 1 <= m <= item.count
    requires -1 <= t < |from.itemlist| && t != IndexOf(from.itemlist, item)
    modifies from`itemlist, item`parent, item`count, S`path, S`totalWeight
    ensures Forest(types, S) && WellStocked(types, S) && Gained(S, from, item.id, -(m as int))
    ensures old(0 <= IndexOf(from.itemlist, item) < |Content(from.itemlist)|)
    ensures Content(from.itemlist) == Shrunken(old(Content(from.itemlist)), old(IndexOf(from.itemlist, item)), m)
    ensures u == Behind(old(Content(from.itemlist)), old(IndexOf(from.itemlist, item)), m, t)
    ensures t >= 0 ==> 0 <= u < |from.itemlist| && from.itemlist[u] == old(from.itemlist)[t]
    ensures LeftWith(from, item, m)
    ensures |from.itemlist| <= |old(from.itemlist)|
  {
    ghost var k := IndexOf(from.itemlist, item);
    assert Content(from.itemlist)[k] == StackOf(item);
    u := Behind(Content(from.itemlist), k, m, t);
    StillThere(from.itemlist, Content(from.itemlist), k, m, t);
    hide Forest, Linkage, WellStocked, Count, Content, Stocked, Behind, Shrunken;
    if m < item.count {
      k := ShrinkStack(types, from, item, m, S);
      ContentShrunk(from, item, k, m);
    } else {
      k := TakeWhole(types, from, item, m, S);
    }
  }

  lemma {:induction false} StillThere(children: seq<Item>, s: seq<Stack>, k: nat, m: nat, t: int)
    requires |s| == |children| && k < |s| && t < |s| && t != k
    ensures m >= s[k].count ==> Shrunken(s, k, m) == s[..k] + s[k + 1..]
    ensures t >= 0 && m >= s[k].count ==>
      var u := Behind(s, k, m, t); 0 <= u < |children| - 1 && (children[..k] + children[k + 1..])[u] == children[t]
    ensures t >= 0 && m < s[k].count ==> Behind(s, k, m, t) == t
  {
  }

  /** Moves `m` units of a stack from one container to another, or within one. */
  method MoveStack(types: Types, from: Item, to: Item, index: int, toItem: Item?, item: Item, m: nat, ghost t: int,
                   ghost S: set<Item>)
    returns (moveItem: Item?, ghost T: set<Item>)
    requires TypesOk(types) && Forest(types, S) && WellStocked(types, S)
    requires from in S && to in S && item in S && from.isContainer && to.isContainer
    requires item in from.itemlist && types(item.id).stackable && 1 <= m <= item.count && item.count <= MAX_STACK
    requires toItem != null ==> toItem in S && toItem != item
    requires PlaceOf(to, toItem, t)
    requires toItem == null || !Alike(item, toItem) || MAX_STACK - toItem.count < m ==>
      index < to.maxSize && |to.itemlist| < to.maxSize
    modifies S
    ensures S <= T && fresh(T - S) && Forest(types, T) && WellStocked(types, T)
    ensures Passed(S, from, to, old(item.id), m) && item.id == old(item.id)
    ensures Relocated(types, old(BeforeMove(from, to, item)), Content(from.itemlist), Content(to.itemlist), from == to,
                      old(IndexOf(from.itemlist, item)), t, m)
    ensures Rearranged(S, from, to, item, toItem) && FilledUp(toItem, item, m) && LeftWith(from, item, m)
    ensures |from.itemlist| <= |old(from.itemlist)| || |from.itemlist| <= from.maxSize
    ensures |to.itemlist| <= |old(to.itemlist)| || |to.itemlist| <= to.maxSize
  {
    hide Forest, Linkage, WellStocked, Count, Content, Stocked, Grown, Shrunken;
    ghost var u := GiveUp(types, from, item, m, if from == to then t else -1, S);
    moveItem, T := Receive(types, to, index, toItem, item, m, if from == to then u else t, S);
  }

  /** Moves a child that is not a stack. */
  method MoveWhole(types: Types, from: Item, to: Item, index: int, item: Item, m: nat, ghost S: set<Item>)
    requires Forest(types, S) && WellStocked(types, S)
    requires from in S && to in S && item in S && from.isContainer && to.isContainer
    requires item in from.itemlist && !types(item.id).stackable && item !in to.path
    requires index < to.maxSize && |to.itemlist| < to.maxSize
    modifies S
    ensures Forest(types, S) && WellStocked(types, S)
    ensures Passed(S, from, to, old(item.id), old(item.count))
    ensures item.parent == to && StackOf(item) == old(StackOf(item)) && Rearranged(S, from, to, item, null)
    ensures Rehung(old(from.itemlist), old(to.itemlist), from.itemlist, to.itemlist, item, from == to,
                   old(IndexOf(from.itemlist, item)))
    ensures |from.itemlist| <= |old(from.itemlist)| || |from.itemlist| <= from.maxSize
    ensures |to.itemlist| <= |old(to.itemlist)| || |to.itemlist| <= to.maxSize
  {
    hide Forest, Linkage, WellStocked, Count, Content;
    ghost var k := TakeWhole(types, from, item, m, S);
    PutInto(types, to, index, item, S);
  }

  /** The child at `k` of the source became the first child of the destination; `s` and `d` are the children
    that the two had before. */
  ghost predicate Rehung(s: seq<Item>, d: seq<Item>, from: seq<Item>, to: seq<Item>, item: Item, within: bool, k: int) {
    && 0 <= k < |s| && s[k] == item
    && if within then to == [item] + (s[..k] + s[k + 1..]) else from == s[..k] + s[k + 1..] && to == [item] + d
  }

  ghost function RemoveVerdict(types: Types, c: Item, item: Item, count: nat, flags: Flags): ReturnValue
    reads c`itemlist, item`id, item`count
  {
    if item !in c.itemlist || count == 0 || (types(item.id).stackable && count > item.count) then NotPossible
    else if !types(item.id).moveable && !flags.ignoreNotMoveable then NotMoveable
    else NoError
  }

  /** `Container::queryRemove`, without house tiles. */
  method QueryRemove(types: Types, c: Item, item: Item, count: nat, flags: Flags) returns (r: ReturnValue)
    ensures r == RemoveVerdict(types, c, item, count, flags)
    ensures r == NotPossible <==>
      (item !in c.itemlist || count == 0 || (types(item.id).stackable && count > item.count))
    ensures r == NotMoveable <==>
      (item in c.itemlist && 0 < count && (types(item.id).stackable ==> count <= item.count)
       && !types(item.id).moveable && !flags.ignoreNotMoveable)
    ensures r in {NoError, NotPossible, NotMoveable}
  {
    if IndexOf(c.itemlist, item) == -1 { return NotPossible; }
    if count == 0 || (types(item.id).stackable && count > item.count) { return NotPossible; }
    if !types(item.id).moveable && !flags.ignoreNotMoveable { return NotMoveable; }
    r := NoError;
  }

  /** Where a move ends up, and the flags that hold there: at most one step up or down. */
  ghost function Goal(types: Types, c: Item, index: int, item: Item, flags: Flags): (Destination, Flags)
    reads *
  {
    var d := Chosen(types, c, index, item, flags);
    if d.cylinder == c then (d, flags) else (Chosen(types, d.cylinder, d.index, item, NO_FLAGS), NO_FLAGS)
  }

  lemma {:induction false} ChildHere(d: Destination, S: set<Item>)
    requires Linkage(S) && d.cylinder in S && Settled(d)
    ensures d.toItem != null ==> d.toItem in S
  {
    assert d.cylinder.Linked(S);
  }

  /** The container that an index names: the parent, a child, or the container itself. */
  ghost function TargetOf(c: Item, index: int): Item
    reads c
  {
    if index == 254 && c.parent != null then c.parent else if NamesBag(c, index) then c.itemlist[index] else c
  }

  /** Where a move ends up, in terms of the index: a step up or down ends there, with any slot and no flags. */
  lemma {:induction false} GoalIs(types: Types, c: Item, index: int, item: Item, flags: Flags, S: set<Item>)
    requires Linkage(S) && c in S && c.isContainer
    ensures var d := Goal(types, c, index, item, flags).0; var to := TargetOf(c, index);
      && d.cylinder == to && to in S && to.isContainer
      && (to == c ==> Directed(types, c, index, item, flags, d))
      && (to != c ==> Directed(types, to, INDEX_WHEREEVER, item, NO_FLAGS, d))
  {
    assert c.Linked(S);
    var to := TargetOf(c, index);
    ChosenIs(types, c, index, item, flags, S);
    ChosenIs(types, to, INDEX_WHEREEVER, item, NO_FLAGS, S);
    hide Linkage, Chosen, JoinedAt, SlotAt;
  }

  /** The loop over `queryDestination` at the head of `internalMoveItem`: it ends at a container that
    names itself as the destination. */
  method ResolveDestination(types: Types, toCylinder: Item, index: int, item: Item, flags0: Flags, ghost S: set<Item>)
    returns (d: Destination, flags: Flags)
    requires Linkage(S) && toCylinder in S && toCylinder.isContainer
    ensures d.cylinder in S && Settled(d)
    ensures flags == flags0 || flags == NO_FLAGS
    ensures (d, flags) == Goal(types, toCylinder, index, item, flags0)
  {
    flags := flags0;
    var current := toCylinder;
    d := QueryDestination(types, current, index, item, flags, S);
    var floorN := 0;
    while d.cylinder != current
      invariant d.cylinder in S && Settled(d)
      invariant flags == flags0 || flags == NO_FLAGS
      invariant floorN == 0 ==> current == toCylinder && flags == flags0
      invariant floorN == 0 ==> d == Chosen(types, toCylinder, index, item, flags0)
      invariant floorN == 0 && d.cylinder != current ==> d.index == INDEX_WHEREEVER
      invariant floorN > 0 ==> d.cylinder == current && (d, flags) == Goal(types, toCylinder, index, item, flags0)
      decreases MAP_MAX_LAYERS - floorN
    {
      current := d.cylinder;
      flags := NO_FLAGS;
      floorN := floorN + 1;
      if floorN >= MAP_MAX_LAYERS { break; }
      d := QueryDestination(types, current, d.index, item, flags, S);
    }
  }

  /** Is `item` the container `c` or one of its ancestors? The walk of `internalMoveItem` past a traded item. */
  method OnPath(c: Item, item: Item, ghost S: set<Item>) returns (b: bool)
    requires Linkage(S) && c in S
    ensures b <==> item in c.path
  {
    assert c.Linked(S);
    var cylinder: Item? := c;
    while cylinder != null
      invariant cylinder != null ==> cylinder in S
      invariant item in c.path <==> cylinder != null && item in cylinder.path
      decreases if cylinder == null then 0 else |cylinder.path|
    {
      assert cylinder.Linked(S);
      if cylinder == item { return true; }
      assert cylinder.parent != null ==> cylinder.parent.Linked(S);
      cylinder := cylinder.parent;
    }
    b := false;
  }

  /** The place `to` has for `m` units of `item` that are not merged into `toItem`. */
  ghost predicate Fits(types: Types, to: Item, index: int, toItem: Item?, item: Item, m: nat)
    reads *
  {
    || (types(item.id).stackable && toItem != null && Alike(item, toItem) && m <= MAX_STACK - toItem.count)
    || (index < to.maxSize && |to.itemlist| < to.maxSize)
  }

  /** What `queryAdd` and `queryMaxCount` allow fits. */
  lemma {:induction false} AllowedFits(types: Types, d: Destination, item: Item, flags: Flags, count: nat, m: nat)
    requires Settled(d) && !flags.noLimit && !flags.childIsOwner
    requires AddVerdict(types, d.cylinder, d.index, item, flags) == NoError
    requires 1 <= m <= MaxCount(types, d.cylinder, d.index, item, count, flags)
    ensures Fits(types, d.cylinder, d.index, d.toItem, item, m)
  {
  }

  /** The answer of a move and the number of units it moves, from the verdicts of the two containers. */
  function Answer(here: bool, add: ReturnValue, stackable: bool, count: nat, most: nat, remove: ReturnValue,
                  traded: bool, held: nat): (ReturnValue, nat)
  {
    if here then (NoError, 0)
    else if add != NoError then (add, 0)
    else if most == 0 && (stackable ==> 0 < count) then (ContainerNotEnoughRoom, 0)
    else if remove != NoError then (remove, 0)
    else if traded then (NotEnoughRoom, 0)
    else if !stackable then (NoError, held)
    else if most < count then (ContainerNotEnoughRoom, most)
    else (NoError, count)
  }

  /** What a move answers, and how many units it moves. */
  ghost function MoveOutcome(types: Types, fromCylinder: Item, toCylinder: Item, index: int, item: Item, count: nat,
                             flags0: Flags, tradeItem: Item?): (ReturnValue, nat)
    reads *
  {
    var (d, flags) := Goal(types, toCylinder, index, item, flags0);
    var most := MaxCount(types, d.cylinder, d.index, item, count, flags);
    Answer(d.toItem == item, AddVerdict(types, d.cylinder, d.index, item, flags), types(item.id).stackable, count, most,
           RemoveVerdict(types, fromCylinder, item, if types(item.id).stackable && count < most then count else most, flags),
           tradeItem != null && tradeItem in d.cylinder.path, item.count)
  }

  /** The checks of `internalMoveItem` at the destination `d`, which change nothing. */
  method CheckMove(types: Types, fromCylinder: Item, d: Destination, flags: Flags, item: Item, count: nat,
                   tradeItem: Item?, ghost S: set<Item>)
    returns (go: bool, ret: ReturnValue, m: nat, retMaxCount: ReturnValue, maxQueryCount: nat)
    requires Linkage(S) && WellStocked(types, S) && d.cylinder in S && Settled(d)
    requires !flags.noLimit && !flags.childIsOwner && d.toItem != item
    ensures maxQueryCount == if AddVerdict(types, d.cylinder, d.index, item, flags) == NoError
                             then MaxCount(types, d.cylinder, d.index, item, count, flags) else 0
    ensures !go ==> ret != NoError
    ensures go ==> ret == NoError && Fits(types, d.cylinder, d.index, d.toItem, item, m) && 1 <= m
    ensures go && types(item.id).stackable ==> (maxQueryCount < count ==> retMaxCount == ContainerNotEnoughRoom)
    ensures AddVerdict(types, d.cylinder, d.index, item, flags) == NoError && go ==>
      m == if types(item.id).stackable && count < maxQueryCount then count else maxQueryCount
    ensures Answer(false, AddVerdict(types, d.cylinder, d.index, item, flags), types(item.id).stackable, count,
                   maxQueryCount,
                   RemoveVerdict(types, fromCylinder, item,
                                 if types(item.id).stackable && count < maxQueryCount then count else maxQueryCount, flags),
                   tradeItem != null && tradeItem in d.cylinder.path, item.count)
      == if !go then (ret, 0)
         else if types(item.id).stackable then (if maxQueryCount < count then retMaxCount else NoError, m)
         else (NoError, item.count)
  {
    hide MaxCount, AddVerdict, WellStocked, Linkage, RemoveVerdict;
    go, m, retMaxCount, maxQueryCount := false, 0, NoError, 0;
    ret := QueryAdd(types, d.cylinder, d.index, item, flags, S);
    if ret != NoError { return; }
    retMaxCount, maxQueryCount := QueryMaxCount(types, d.cylinder, d.index, item, count, flags, S);
    if retMaxCount != NoError && maxQueryCount == 0 {
      ret := retMaxCount;
      return;
    }
    m := if types(item.id).stackable && count < maxQueryCount then count else maxQueryCount;
    ret := QueryRemove(types, fromCylinder, item, m, flags);
    if ret != NoError { return; }
    if tradeItem != null {
      var inTrade := OnPath(d.cylinder, tradeItem, S);
      if inTrade {
        ret := NotEnoughRoom;
        return;
      }
    }
    NothingIsNotRemoved(types, fromCylinder, item, flags);
    AllowedFits(types, d, item, flags, count, m);
    go := true;
  }

  lemma {:induction false} NothingIsNotRemoved(types: Types, c: Item, item: Item, flags: Flags)
    ensures RemoveVerdict(types, c, item, 0, flags) != NoError
  {
  }

  /** The checks of `internalMoveItem`, which change nothing: what is moved where, if anything. */
  method PlanMove(types: Types, fromCylinder: Item, toCylinder: Item, index: int, item: Item, count: nat,
                  flags0: Flags, tradeItem: Item?, ghost S: set<Item>)
    returns (go: bool, ret: ReturnValue, d: Destination, m: nat, retMaxCount: ReturnValue, maxQueryCount: nat)
    requires Linkage(S) && WellStocked(types, S)
    requires fromCylinder in S && toCylinder in S && item in S && fromCylinder.isContainer && toCylinder.isContainer
    requires !flags0.noLimit && !flags0.childIsOwner
    ensures d.cylinder in S && Settled(d) && d == Goal(types, toCylinder, index, item, flags0).0
    ensures d.cylinder == TargetOf(toCylinder, index) && (d.toItem != null ==> d.toItem in S)
    ensures MoveOutcome(types, fromCylinder, toCylinder, index, item, count, flags0, tradeItem) ==
      if !go then (ret, 0) else if types(item.id).stackable then (if maxQueryCount < count then retMaxCount else NoError, m)
      else (NoError, item.count)
    ensures go ==> ret == NoError && item in fromCylinder.itemlist && item !in d.cylinder.path && d.toItem != item
    ensures go ==> Fits(types, d.cylinder, d.index, d.toItem, item, m) && 1 <= m
    ensures go && types(item.id).stackable ==>
      m == (if count < maxQueryCount then count else maxQueryCount) && m <= item.count
      && (maxQueryCount < count ==> retMaxCount == ContainerNotEnoughRoom)
  {
    hide Goal, MaxCount, WellStocked, Linkage, Fits, TargetOf, Directed;
    GoalIs(types, toCylinder, index, item, flags0, S);
    go, m, retMaxCount, maxQueryCount := false, 0, NoError, 0;
    var flags: Flags;
    d, flags := ResolveDestination(types, toCylinder, index, item, flags0, S);
    ChildHere(d, S);
    if d.toItem == item { ret := NoError; return; }
    go, ret, m, retMaxCount, maxQueryCount := CheckMove(types, fromCylinder, d, flags, item, count, tradeItem, S);
  }

  /** The contents of all items of a forest. */
  ghost function Stock(S: set<Item>): (r: map<Item, seq<Stack>>)
    reads *
    ensures r.Keys == S
  {
    map x | x in S :: Content(x.itemlist)
  }

  /** `m` units of the stack of `kind` at `k` of `from` went to the destination. */
  ghost predicate StackMoved(types: Types, a: map<Item, seq<Stack>>, b: map<Item, seq<Stack>>, from: Item, d: Destination,
                             kind: Stack, k: int, m: nat) {
    && {from, d.cylinder} <= a.Keys && {from, d.cylinder} <= b.Keys
    && Relocated(types, Before(a[from], a[d.cylinder], kind), b[from], b[d.cylinder], from == d.cylinder, k, SlotOf(d), m)
  }

  twostate lemma {:induction false} StocksMoved(new types: Types, new S: set<Item>, new from: Item, new d: Destination,
                                                new item: Item, new m: nat)
    requires old(allocated(types)) && old(allocated(S)) && old(allocated(from)) && old(allocated(d))
    requires old(allocated(item)) && from in S && d.cylinder in S
    requires Relocated(types, old(BeforeMove(from, d.cylinder, item)), Content(from.itemlist), Content(d.cylinder.itemlist),
                       from == d.cylinder, old(IndexOf(from.itemlist, item)), SlotOf(d), m)
    ensures StackMoved(types, old(Stock(S)), Stock(S), from, d, old(KindOf(item)), old(IndexOf(from.itemlist, item)), m)
  {
    hide Relocated, Content, KindOf;
  }

  /** `m` of type `id` went from one container to another, or stayed in the same one, and no other content changed. */
  ghost predicate Moved(before: map<Item, seq<Stack>>, after: map<Item, seq<Stack>>, from: Item, to: Item, id: nat,
                        m: nat) {
    && from in before && to in before && after.Keys == before.Keys
    && (forall k ::
          Count(k, after[to]) == Count(k, before[to]) + (if k == id && from != to then m else 0)
          && Count(k, after[from]) == Count(k, before[from]) - (if k == id && from != to then m else 0))
    && (forall x :: x in before && x != from && x != to ==> after[x] == before[x])
  }

  twostate lemma {:induction false} PassedIsMoved(new S: set<Item>, new from: Item, new to: Item, new id: nat,
                                                  new m: nat)
    requires old(allocated(S)) && old(allocated(from)) && old(allocated(to))
    requires from in S && to in S && Passed(S, from, to, id, m)
    requires |from.itemlist| <= |old(from.itemlist)| || |from.itemlist| <= from.maxSize
    requires |to.itemlist| <= |old(to.itemlist)| || |to.itemlist| <= to.maxSize
    ensures Moved(old(Stock(S)), Stock(S), from, to, id, m) && CapacityKept(old(Stock(S)), Stock(S))
  {
    hide Count, Content;
  }

  lemma {:induction false} NothingMoved(stock: map<Item, seq<Stack>>, from: Item, to: Item, id: nat)
    requires from in stock && to in stock
    ensures Moved(stock, stock, from, to, id, 0) && CapacityKept(stock, stock)
  {
  }

  /** No container grew beyond its capacity. */
  ghost predicate CapacityKept(before: map<Item, seq<Stack>>, after: map<Item, seq<Stack>>) {
    forall x :: x in before && x in after ==> |after[x]| <= |before[x]| || |after[x]| <= x.maxSize
  }

  /** The effect of `internalMoveItem` once its checks have passed. */
  method CommitMove(types: Types, from: Item, d: Destination, item: Item, m: nat, ghost S: set<Item>)
    returns (moved: nat, ghost T: set<Item>)
    requires TypesOk(types) && Forest(types, S) && WellStocked(types, S)
    requires from in S && d.cylinder in S && item in S && from.isContainer && Settled(d) && d.toItem != item
    requires item in from.itemlist && item !in d.cylinder.path && 1 <= m
    requires Fits(types, d.cylinder, d.index, d.toItem, item, m)
    requires types(item.id).stackable ==> m <= item.count
    modifies S
    ensures S <= T && fresh(T - S) && Forest(types, T) && WellStocked(types, T)
    ensures moved == if old(types(item.id).stackable) then m else old(item.count)
    ensures Moved(old(Stock(S)), Stock(S), from, d.cylinder, old(item.id), moved) && item.id == old(item.id)
    ensures CapacityKept(old(Stock(S)), Stock(S))
    ensures old(types(item.id).stackable) ==>
      StackMoved(types, old(Stock(S)), Stock(S), from, d, old(KindOf(item)), old(IndexOf(from.itemlist, item)), moved)
    ensures OnlyMoved(old(Faces(S)), Faces(S), from, d.cylinder, item, d.toItem)
    ensures old(types(item.id).stackable) ==> UnitsMoved(old(Faces(S)), Faces(S), from, item, d.toItem, moved)
    ensures old(!types(item.id).stackable) ==>
      T == S && ItemMoved(old(Faces(S)), Faces(S), from, d.cylinder, item)
  {
    T := S;
    assert from.Linked(S) && d.cylinder.Linked(S) && Stocked(types, item);
    assert types(item.id).stackable ==> item.count <= MAX_STACK;
    assert d.toItem != null ==> d.toItem in d.cylinder.itemlist && d.toItem in S;
    hide Forest, WellStocked, Linkage, Count, Content, Stocked, Relocated, Rehung, Passed, Moved, CapacityKept, Stock, Faces,
         OnlyMoved, UnitsMoved, ItemMoved, StackMoved;
    if types(item.id).stackable {
      var moveItem;
      moved := m;
      moveItem, T := MoveStack(types, from, d.cylinder, d.index, d.toItem, item, m, SlotOf(d), S);
      PassedIsMoved(S, from, d.cylinder, old(item.id), m);
      UnitsAreMoved(S, from, item, d.toItem, m);
      StocksMoved(types, S, from, d, item, m);
    } else {
      moved := item.count;
      MoveWhole(types, from, d.cylinder, d.index, item, m, S);
      PassedIsMoved(S, from, d.cylinder, old(item.id), old(item.count));
      ItemIsMoved(S, from, d.cylinder, item);
    }
    FacesMoved(S, from, d.cylinder, item, d.toItem);
  }

  /** `Game::internalMoveItem` between plain containers without FLAG_NOLIMIT. `d` is where the item was to go,
    `moved` the number of units that changed place. */
  method InternalMoveItem(types: Types, fromCylinder: Item, toCylinder: Item, index: int, item: Item, count: nat,
                          flags0: Flags, tradeItem: Item?, ghost S: set<Item>)
    returns (ret: ReturnValue, d: Destination, moved: nat, ghost T: set<Item>)
    requires TypesOk(types) && Forest(types, S) && WellStocked(types, S)
    requires fromCylinder in S && toCylinder in S && item in S && fromCylinder.isContainer && toCylinder.isContainer
    requires !flags0.noLimit && !flags0.childIsOwner
    modifies S
    ensures S <= T && fresh(T - S) && Forest(types, T) && WellStocked(types, T)
    ensures d.cylinder in S && d == old(Goal(types, toCylinder, index, item, flags0)).0
    ensures (ret, moved) == old(MoveOutcome(types, fromCylinder, toCylinder, index, item, count, flags0, tradeItem))
    ensures Moved(old(Stock(S)), Stock(S), fromCylinder, d.cylinder, old(item.id), moved)
    ensures CapacityKept(old(Stock(S)), Stock(S))
    ensures moved == 0 && 0 < old(item.count) ==> unchanged(S)
    ensures 0 < moved && old(types(item.id).stackable) ==>
      StackMoved(types, old(Stock(S)), Stock(S), fromCylinder, d, old(KindOf(item)),
                 old(IndexOf(fromCylinder.itemlist, item)), moved)
    ensures d.cylinder == old(TargetOf(toCylinder, index))
    ensures OnlyMoved(old(Faces(S)), Faces(S), fromCylinder, d.cylinder, item, d.toItem)
    ensures 0 < moved && old(types(item.id).stackable) ==>
      UnitsMoved(old(Faces(S)), Faces(S), fromCylinder, item, d.toItem, moved)
    ensures 0 < moved && old(!types(item.id).stackable) ==>
      T == S && ItemMoved(old(Faces(S)), Faces(S), fromCylinder, d.cylinder, item)
  {
    hide *;
    LinkedForest(types, S);
    T, moved := S, 0;
    var go, m, retMaxCount, maxQueryCount;
    go, ret, d, m, retMaxCount, maxQueryCount :=
      PlanMove(types, fromCylinder, toCylinder, index, item, count, flags0, tradeItem, S);
    if !go {
      NothingMoved(Stock(S), fromCylinder, d.cylinder, item.id);
      NobodyMoved(Faces(S), fromCylinder, d.cylinder, item, d.toItem);
      return;
    }
    moved, T := CommitMove(types, fromCylinder, d, item, m, S);
    if types(item.id).stackable && maxQueryCount < count { ret := retMaxCount; }
  }

  /** What an answer says: with no error everything asked for arrives, unless the item was dropped onto itself;
    with an error nothing arrives, unless only a part of a stack found room. */
  lemma {:induction false} AnswerMeans(types: Types, fromCylinder: Item, toCylinder: Item, index: int, item: Item,
                                       count: nat, flags0: Flags, tradeItem: Item?)
    ensures var (ret, moved) := MoveOutcome(types, fromCylinder, toCylinder, index, item, count, flags0, tradeItem);
      var d := Goal(types, toCylinder, index, item, flags0).0;
      && (0 < moved ==> item in fromCylinder.itemlist && d.toItem != item)
      && (types(item.id).stackable ==> moved <= count && (0 < moved ==> moved <= item.count))
      && (types(item.id).stackable && ret == NoError && d.toItem != item ==> moved == count)
      && (!types(item.id).stackable ==> moved == if ret == NoError && d.toItem != item then item.count else 0)
      && (ret != NoError && 0 < moved ==> ret == ContainerNotEnoughRoom && moved < count)
      && (d.toItem == item ==> ret == NoError && moved == 0)
  {
    hide Goal, MaxCount, AddVerdict;
  }

  /** What each error of a move means: the first check that fails, at the destination, at the source, and for a trade. */
  lemma {:induction false} RefusalMeans(types: Types, fromCylinder: Item, toCylinder: Item, index: int, item: Item,
                                        count: nat, flags0: Flags, tradeItem: Item?)
    requires !flags0.noLimit && !flags0.childIsOwner
    ensures var ret := MoveOutcome(types, fromCylinder, toCylinder, index, item, count, flags0, tradeItem).0;
      var (d, flags) := Goal(types, toCylinder, index, item, flags0);
      && (ret == CannotPickup <==> d.toItem != item && !types(item.id).pickupable)
      && (ret == ThisIsImpossible <==> d.toItem != item && types(item.id).pickupable && item in d.cylinder.path)
      && (ret == NotPossible && item in fromCylinder.itemlist ==> types(item.id).stackable)
      && (ret == NotMoveable ==> item in fromCylinder.itemlist && !types(item.id).moveable && !flags.ignoreNotMoveable)
      && (ret == NotEnoughRoom ==> tradeItem != null && tradeItem in d.cylinder.path)
      && (item !in fromCylinder.itemlist && d.toItem != item ==> ret != NoError)
  {
    var (d, flags) := Goal(types, toCylinder, index, item, flags0);
    assert !flags.noLimit && !flags.childIsOwner;
    hide Goal, RoomIn;
  }

  /** The free slots of `c`. */
  ghost function Free(c: Item): nat
    reads c`itemlist
  {
    if |c.itemlist| <= c.maxSize then c.maxSize - |c.itemlist| else 0
  }

  /** A part of a stack is moved in full exactly when each side agrees: the destination is open for the item and
    has the space, the source has the units and lets them go, and no trade is in the way. */
  lemma {:induction false} StackMovesInFull(types: Types, fromCylinder: Item, toCylinder: Item, index: int, item: Item,
                                            count: nat, flags0: Flags, tradeItem: Item?)
    requires types(item.id).stackable && 0 < count && !flags0.noLimit && !flags0.childIsOwner
    ensures var (d, flags) := Goal(types, toCylinder, index, item, flags0);
      var child := ChildAt(d.cylinder, d.index);
      var room := if d.index == INDEX_WHEREEVER then RoomIn(d.cylinder.itemlist, item)
                  else if child != null && Alike(item, child) && child.count < MAX_STACK then MAX_STACK - child.count else 0;
      (MoveOutcome(types, fromCylinder, toCylinder, index, item, count, flags0, tradeItem) == (NoError, count) <==>
        && d.toItem != item && types(item.id).pickupable && item !in d.cylinder.path
        && (d.index == INDEX_WHEREEVER ==> |d.cylinder.itemlist| < d.cylinder.maxSize)
        && count <= Free(d.cylinder) * MAX_STACK + room
        && item in fromCylinder.itemlist && count <= item.count
        && (types(item.id).moveable || flags.ignoreNotMoveable)
        && !(tradeItem != null && tradeItem in d.cylinder.path))
  {
    var (d, flags) := Goal(types, toCylinder, index, item, flags0);
    assert !flags.noLimit && !flags.childIsOwner;
    hide Goal, RoomIn;
  }

  /** And a part of it is moved exactly when the space is all that lacks: as much as there is space for. */
  lemma {:induction false} StackMovesInPart(types: Types, fromCylinder: Item, toCylinder: Item, index: int, item: Item,
                                            count: nat, flags0: Flags, tradeItem: Item?)
    requires types(item.id).stackable && !flags0.noLimit && !flags0.childIsOwner
    ensures var (d, flags) := Goal(types, toCylinder, index, item, flags0);
      var child := ChildAt(d.cylinder, d.index);
      var room := if d.index == INDEX_WHEREEVER then RoomIn(d.cylinder.itemlist, item)
                  else if child != null && Alike(item, child) && child.count < MAX_STACK then MAX_STACK - child.count else 0;
      var most := Free(d.cylinder) * MAX_STACK + room;
      var (ret, moved) := MoveOutcome(types, fromCylinder, toCylinder, index, item, count, flags0, tradeItem);
      && (ret != NoError && 0 < moved <==>
          && d.toItem != item && types(item.id).pickupable && item !in d.cylinder.path
          && (d.index == INDEX_WHEREEVER ==> |d.cylinder.itemlist| < d.cylinder.maxSize)
          && 0 < most < count && item in fromCylinder.itemlist && most <= item.count
          && (types(item.id).moveable || flags.ignoreNotMoveable)
          && !(tradeItem != null && tradeItem in d.cylinder.path))
      && (ret != NoError && 0 < moved ==> moved == most)
  {
    var (d, flags) := Goal(types, toCylinder, index, item, flags0);
    assert !flags.noLimit && !flags.childIsOwner;
    hide Goal, RoomIn;
  }

  /** Any other item is moved exactly under the same conditions, for one free slot. */
  lemma {:induction false} ItemMovesInFull(types: Types, fromCylinder: Item, toCylinder: Item, index: int, item: Item,
                                           count: nat, flags0: Flags, tradeItem: Item?)
    requires !types(item.id).stackable && !flags0.noLimit && !flags0.childIsOwner
    ensures var (d, flags) := Goal(types, toCylinder, index, item, flags0);
      (d.toItem != item && MoveOutcome(types, fromCylinder, toCylinder, index, item, count, flags0, tradeItem) ==
        (NoError, item.count)
       <==>
        && d.toItem != item && types(item.id).pickupable && item !in d.cylinder.path && 0 < Free(d.cylinder)
        && item in fromCylinder.itemlist && (types(item.id).moveable || flags.ignoreNotMoveable)
        && !(tradeItem != null && tradeItem in d.cylinder.path))
  {
    var (d, flags) := Goal(types, toCylinder, index, item, flags0);
    assert !flags.noLimit && !flags.childIsOwner;
    hide Goal, RoomIn;
  }

  /** A content that `n` units of `x` are added to wherever there is room: with auto-stacking the first stack with
    room is filled up, then the next one, and what is left is a new first stack. */
  function Stowed(types: Types, s: seq<Stack>, x: Stack, n: nat, auto: bool): seq<Stack>
    decreases n
  {
    var k := if auto then FirstRoom(s, x) else -1;
    if n == 0 then s
    else if k < 0 then [x.(count := n)] + s
    else Stowed(types, Filled(types, s, x, k, n), x, n - Share(s, x, k, n), auto)
  }

  /** A content that the last `n` units of `x` are added to: an untouched item becomes a new first stack, and a smaller
    rest is stowed; `open` says that there is a free slot, without which only auto-stacking can stow it. */
  function Rested(types: Types, s: seq<Stack>, x: Stack, n: nat, auto: bool, open: bool): seq<Stack> {
    if n == x.count then [x] + s else if auto || open then Stowed(types, s, x.(count := 0), n, auto) else s
  }

  /** A content that the item `x` is added to when `queryDestination` found the child at `t`, or none for -1. */
  function Added(types: Types, s: seq<Stack>, x: Stack, t: int, auto: bool, open: bool): seq<Stack>
    requires t < |s|
  {
    if types(x.id).stackable
    then Rested(types, Filled(types, s, x, t, x.count), x, x.count - Share(s, x, t, x.count), auto, open)
    else [x] + s
  }

  /** How many of the last `n` units of `x` find no place. */
  function RestLost(x: Stack, n: nat, auto: bool, open: bool): nat {
    if n == x.count || auto || open then 0 else n
  }

  /** How many units of the item `x` are lost in an add: the rest that the child at `t` did not take. */
  function Lost(types: Types, s: seq<Stack>, x: Stack, t: int, auto: bool, open: bool): nat
    requires t < |s|
  {
    if types(x.id).stackable then RestLost(x, x.count - Share(s, x, t, x.count), auto, open) else 0
  }

  lemma {:induction false} FirstRoomOfKind(s: seq<Stack>, x: Stack, n: nat)
    ensures FirstRoom(s, x.(count := n)) == FirstRoom(s, x)
  {
    if s != [] {
      FirstRoomOfKind(s[1..], x, n);
    }
  }

  /** Adding a stack wherever there is room is stowing its units. */
  lemma {:induction false} AddedIsStowed(types: Types, s: seq<Stack>, x: Stack, auto: bool)
    requires types(x.id).stackable && 0 < x.count
    ensures var t := if auto then FirstRoom(s, x) else -1;
      && Added(types, s, x, t, auto, true) == Added(types, s, x, t, auto, false) ==
        Stowed(types, s, x.(count := 0), x.count, auto)
      && Lost(types, s, x, t, auto, true) == Lost(types, s, x, t, auto, false) == 0
  {
    FirstRoomOfKind(s, x, 0);
    var k := if auto then FirstRoom(s, x) else -1;
    assert Filled(types, s, x, k, x.count) == Filled(types, s, x.(count := 0), k, x.count);
  }

  /** Filling up one stack adds what it takes. */
  lemma {:induction false} FilledCounts(types: Types, s: seq<Stack>, x: Stack, t: int, m: nat, id: nat)
    requires t < |s| && types(x.id).stackable && !types(x.id).fluid && (t >= 0 ==> s[t].count <= MAX_STACK)
    ensures Count(id, Filled(types, s, x, t, m)) == Count(id, s) + (if id == x.id then Share(s, x, t, m) else 0)
  {
    if t >= 0 && s[t].id == x.id && s[t].attrs == x.attrs {
      CountUpdate(id, s, t, Updated(types, s[t], s[t].count + Share(s, x, t, m)));
    }
  }

  /** Stowing `n` units adds exactly these, in one new stack at most. */
  lemma {:induction false} StowedCounts(types: Types, s: seq<Stack>, x: Stack, n: nat, auto: bool, id: nat)
    requires types(x.id).stackable && !types(x.id).fluid
    ensures Count(id, Stowed(types, s, x, n, auto)) == Count(id, s) + (if id == x.id then n else 0)
    ensures |Stowed(types, s, x, n, auto)| <= |s| + 1
    decreases n
  {
    var k := if auto then FirstRoom(s, x) else -1;
    if n > 0 && k >= 0 {
      FilledCounts(types, s, x, k, n, id);
      StowedCounts(types, Filled(types, s, x, k, n), x, n - Share(s, x, k, n), auto, id);
    }
  }

  /** Adding an item adds exactly its count less what is lost, in one new stack at most. */
  lemma {:induction false} AddedCounts(types: Types, s: seq<Stack>, x: Stack, t: int, auto: bool, open: bool, id: nat)
    requires t < |s| && (types(x.id).stackable ==> !types(x.id).fluid)
    requires t >= 0 && types(x.id).stackable ==> s[t].count <= MAX_STACK
    ensures var lost := Lost(types, s, x, t, auto, open);
      && lost <= x.count
      && Count(id, Added(types, s, x, t, auto, open)) == Count(id, s) + (if id == x.id then x.count - lost else 0)
    ensures |Added(types, s, x, t, auto, open)| <= |s| + 1
  {
    if types(x.id).stackable {
      FilledCounts(types, s, x, t, x.count, id);
      StowedCounts(types, Filled(types, s, x, t, x.count), x.(count := 0), x.count - Share(s, x, t, x.count), auto, id);
    }
  }

  /** The answer of an add. */
  ghost function AddOutcome(types: Types, c: Item, index: int, item: Item, flags: Flags): ReturnValue
    reads *
  {
    var d := Chosen(types, c, index, item, flags);
    var most := MaxCount(types, c, INDEX_WHEREEVER, item, item.count, flags);
    var verdict := AddVerdict(types, d.cylinder, d.index, item, flags);
    if verdict != NoError then verdict
    else if flags.noLimit || (if types(item.id).stackable then most >= item.count else most > 0) then NoError
    else ContainerNotEnoughRoom
  }

  /** `c` is open for new items like `item`, and free slots and stacks have space for `count` units. */
  ghost predicate CanTake(types: Types, c: Item, item: Item, count: int)
    reads c, c.itemlist, item
  {
    types(item.id).pickupable && Free(c) * MAX_STACK + RoomIn(c.itemlist, item) >= count
  }

  /** `c` can take `count` units like `item` wherever there is room: in slots and stacks, or without
    auto-stacking in a slot. */
  ghost predicate HasPlace(types: Types, c: Item, item: Item, count: int, flags: Flags)
    reads c, c.itemlist, item
  {
    if flags.ignoreAutoStack then types(item.id).pickupable && |c.itemlist| < c.maxSize else CanTake(types, c, item, count)
  }

  /** The child that an add found takes a part of the stack `item`, or all of it. */
  ghost predicate Joins(types: Types, d: Destination, item: Item)
    reads *
  {
    types(item.id).stackable && d.toItem != null && HasRoomFor(d.toItem, item)
  }

  /** A loose stack can be added wherever there is room exactly when the container can take all of it and
    does not lie in it. */
  lemma {:induction false} StackIsAdded(types: Types, c: Item, item: Item, flags: Flags, S: set<Item>)
    requires Linkage(S) && c in S && c.isContainer && item.parent == null
    requires types(item.id).stackable && 1 <= item.count <= MAX_STACK && !flags.noLimit && !flags.childIsOwner
    ensures AddOutcome(types, c, INDEX_WHEREEVER, item, flags) == NoError <==>
      HasPlace(types, c, item, item.count, flags) && item !in c.path
  {
    assert c.Linked(S);
    if FirstRoom(Content(c.itemlist), StackOf(item)) < 0 {
      NoRoomLeft(c.itemlist, item);
    }
  }

  /** A loose item is added exactly when the container that the index names is open for it, and the container asked has the
    space: for a stack in slots and stacks, for anything else in a slot. */
  lemma {:induction false} AddIsAnswered(types: Types, c: Item, index: int, item: Item, flags: Flags, S: set<Item>)
    requires Linkage(S) && c in S && c.isContainer && item.parent == null && !flags.noLimit && !flags.childIsOwner
    ensures var d, to := Chosen(types, c, index, item, flags), TargetOf(c, index);
      (AddOutcome(types, c, index, item, flags) == NoError <==>
        && types(item.id).pickupable && item !in to.path
        && (d.index == INDEX_WHEREEVER ==> |to.itemlist| < to.maxSize)
        && (if types(item.id).stackable then item.count <= Free(c) * MAX_STACK + RoomIn(c.itemlist, item) else 0 < Free(c)))
  {
    var to := TargetOf(c, index);
    ChosenIs(types, c, index, item, flags, S);
    assert c.Linked(S) && to.Linked(S);
    hide Linkage, Chosen, RoomIn, JoinedAt, SlotAt;
  }

  /** What each error of an add means. */
  lemma {:induction false} AddRefusalMeans(types: Types, c: Item, index: int, item: Item, flags: Flags, S: set<Item>)
    requires Linkage(S) && c in S && c.isContainer && item.parent == null && !flags.noLimit && !flags.childIsOwner
    ensures var ret, to := AddOutcome(types, c, index, item, flags), TargetOf(c, index);
      && (ret == CannotPickup <==> !types(item.id).pickupable)
      && (ret == ThisIsImpossible <==> types(item.id).pickupable && item in to.path)
      && (ret in {NoError, CannotPickup, ThisIsImpossible, ContainerNotEnoughRoom})
  {
    ChosenIs(types, c, index, item, flags, S);
    hide Linkage, Chosen, RoomIn, JoinedAt, SlotAt, MaxCount;
  }

  /** A stack that goes to a slot of its own choice without auto-stacking, in a full container whose other stacks have
    room for it: the count is checked against the room in all stacks, which the add then does not use. */
  ghost predicate Overflows(types: Types, c: Item, index: int, item: Item, flags: Flags)
    reads *
  {
    var d := Chosen(types, c, index, item, flags);
    && flags.ignoreAutoStack && types(item.id).stackable && types(item.id).pickupable && item !in c.path
    && d.cylinder == c && d.index != INDEX_WHEREEVER && |c.itemlist| >= c.maxSize && !Joins(types, d, item)
    && item.count <= RoomIn(c.itemlist, item)
  }

  /** Exactly then an add is answered with no error although the destination is full and the child there takes
    nothing. */
  lemma {:induction false} OverflowsExactly(types: Types, c: Item, index: int, item: Item, flags: Flags, S: set<Item>)
    requires Linkage(S) && c in S && c.isContainer && item in S && item.parent == null
    requires types(item.id).stackable ==> 1 <= item.count <= MAX_STACK
    requires !flags.noLimit && !flags.childIsOwner
    ensures var d := Chosen(types, c, index, item, flags);
      AddOutcome(types, c, index, item, flags) == NoError && |d.cylinder.itemlist| >= d.cylinder.maxSize
        && !Joins(types, d, item)
      <==> Overflows(types, c, index, item, flags)
  {
    var d := Chosen(types, c, index, item, flags);
    assert c.Linked(S) && d.cylinder.Linked(S);
    if FirstRoom(Content(c.itemlist), StackOf(item)) < 0 {
      NoRoomLeft(c.itemlist, item);
    }
  }

  /** When an add loses units, and how many: without auto-stacking, in a full container, where the child at the slot
    takes some of the stack but not all. */
  lemma {:induction false} LostExactly(types: Types, d: Destination, item: Item, auto: bool, S: set<Item>)
    requires WellStocked(types, S) && Linkage(S) && d.cylinder in S && Settled(d) && item.parent == null && item in S
    requires types(item.id).stackable ==> 1 <= item.count <= MAX_STACK
    ensures var lost := Lost(types, Content(d.cylinder.itemlist), StackOf(item), SlotOf(d), auto,
                             |d.cylinder.itemlist| < d.cylinder.maxSize);
      && (0 < lost <==>
          !auto && |d.cylinder.itemlist| >= d.cylinder.maxSize && Joins(types, d, item)
            && item.count + d.toItem.count > MAX_STACK)
      && (0 < lost ==> lost == item.count + d.toItem.count - MAX_STACK)
  {
    assert d.cylinder.Linked(S);
    if d.toItem != null {
      assert Content(d.cylinder.itemlist)[d.index] == StackOf(d.toItem) && Stocked(types, d.toItem) && d.toItem != item;
    }
  }

  /** A full container with room in one stack, and an add to another slot without auto-stacking: no error, and one
    stack too many. */
  lemma {:induction false} SlotMayOverflow(types: Types, c: Item, other: Item, stack: Item, item: Item)
    requires c.maxSize == 2 && c.itemlist == [other, stack] && !other.isContainer && other.id != item.id
    requires Alike(stack, item) && stack != item && stack.count == 50 && item.count == 10
    requires types(item.id).stackable && types(item.id).pickupable && item !in c.path
    ensures var flags := NO_FLAGS.(ignoreAutoStack := true); var d := Chosen(types, c, 0, item, flags);
      && AddOutcome(types, c, 0, item, flags) == NoError && d == Destination(c, 0, other)
      && |Added(types, Content(c.itemlist), StackOf(item), SlotOf(d), false, false)| == 3
  {
    assert RoomIn(c.itemlist, item) == RoomIn([stack], item) == 50;
  }

  /** A full container with room in two stacks of 80 and 30, and an add of 50 to the first of them without
    auto-stacking: no error, but only 20 units arrive. */
  lemma {:induction false} SlotMayLose(types: Types, c: Item, first: Item, second: Item, item: Item)
    requires c.maxSize == 2 && c.itemlist == [first, second] && !first.isContainer
    requires Alike(first, item) && first != item && first.count == 80
    requires Alike(second, item) && second != item && second.count == 30 && item.count == 50
    requires types(item.id).stackable && types(item.id).pickupable && item !in c.path
    ensures var flags := NO_FLAGS.(ignoreAutoStack := true); var d := Chosen(types, c, 0, item, flags);
      && AddOutcome(types, c, 0, item, flags) == NoError && d == Destination(c, 0, first)
      && Lost(types, Content(c.itemlist), StackOf(item), SlotOf(d), false, false) == 30
      && |Added(types, Content(c.itemlist), StackOf(item), SlotOf(d), false, false)| == 2
  {
    assert RoomIn(c.itemlist, item) == 20 + RoomIn([second], item) == 90;
    assert Content(c.itemlist) == [StackOf(first), StackOf(second)];
  }

  /** A copy that is in no container finds the same room. */
  lemma {:induction false} RoomForCopy(s: seq<Item>, item: Item, copy: Item)
    requires item !in s && copy !in s && copy.id == item.id && copy.attrs == item.attrs
    ensures RoomIn(s, copy) == RoomIn(s, item)
  {
    if s != [] {
      RoomForCopy(s[1..], item, copy);
      assert s[0] in s;
    }
  }

  /** Filling up one stack uses up exactly its room. */
  twostate lemma {:induction false} RoomUsedUp(new s: seq<Item>, new toItem: Item, new item: Item)
    requires old(allocated(s)) && old(allocated(toItem)) && old(allocated(item))
    requires forall i, j :: 0 <= i < j < |s| ==> s[i] != s[j]
    requires forall x :: x in s && x != toItem ==> StackOf(x) == old(StackOf(x))
    requires item !in s && StackOf(item) == old(StackOf(item))
    requires old(HasRoomFor(toItem, item)) && toItem.count == MAX_STACK
    ensures RoomIn(s, item) == old(RoomIn(s, item)) - (if toItem in s then MAX_STACK - old(toItem.count) else 0)
  {
    if s != [] {
      RoomUsedUp(s[1..], toItem, item);
      assert s[0] !in s[1..];
      assert s[0] in s;
      if s[0] != toItem {
        assert StackOf(s[0]) == old(StackOf(s[0]));
      }
    }
  }

  /** The checks of `internalAddItem`, which change nothing. */
  method PlanAdd(types: Types, toCylinder: Item, item: Item, index: int, flags: Flags, ghost S: set<Item>)
    returns (ret: ReturnValue, d: Destination, maxQueryCount: nat)
    requires Linkage(S) && WellStocked(types, S)
    requires toCylinder in S && toCylinder.isContainer && item in S && item.parent == null
    requires types(item.id).stackable ==> 1 <= item.count <= MAX_STACK
    requires !flags.noLimit && !flags.childIsOwner
    ensures d.cylinder in S && Settled(d) && d == Chosen(types, toCylinder, index, item, flags)
    ensures d.cylinder == TargetOf(toCylinder, index)
    ensures ret == AddOutcome(types, toCylinder, index, item, flags)
    ensures ret == NoError ==> item !in d.cylinder.path && types(item.id).pickupable
    ensures ret == NoError && types(item.id).stackable ==> maxQueryCount >= item.count
    ensures ret == NoError && Joins(types, d, item) && !flags.ignoreAutoStack ==>
      CanTake(types, d.cylinder, item, item.count)
    ensures ret == NoError && !Joins(types, d, item) ==> d.index < d.cylinder.maxSize
  {
    d := QueryDestination(types, toCylinder, index, item, flags, S);
    assert d.cylinder.Linked(S);
    maxQueryCount := 0;
    ret := QueryAdd(types, d.cylinder, d.index, item, flags, S);
    if ret != NoError { return; }
    ret, maxQueryCount := QueryMaxCount(types, toCylinder, INDEX_WHEREEVER, item, item.count, flags, S);
  }

  /** After one stack is filled up, the container can still take the rest. */
  twostate lemma {:induction false} StillCanTake(new types: Types, new S: set<Item>, new c: Item, new toItem: Item,
                                                 new item: Item)
    requires old(allocated(types)) && old(allocated(S)) && old(allocated(c)) && old(allocated(toItem))
    requires old(allocated(item))
    requires c in S && toItem in S && item in S && old(Linkage(S)) && old(CanTake(types, c, item, item.count))
    requires unchanged(S`itemlist) && forall x :: x in S && x != toItem ==> StackOf(x) == old(StackOf(x))
    requires toItem in c.itemlist && old(item.parent) == null
    requires old(HasRoomFor(toItem, item)) && toItem.count == MAX_STACK
    ensures CanTake(types, c, item, item.count - (MAX_STACK - old(toItem.count)))
  {
    assert old(c.Linked(S));
    RoomUsedUp(c.itemlist, toItem, item);
  }

  /** The rest of `item`, smaller than it, goes through `internalAddItem` as a new stack; without auto-stacking that
    fails when no slot is free, and the rest is lost. */
  method AddRemainder(types: Types, c: Item, item: Item, count: nat, flags: Flags, ghost S: set<Item>)
    returns (remainderCount: nat, ghost T: set<Item>)
    requires TypesOk(types) && Forest(types, S) && WellStocked(types, S)
    requires c in S && c.isContainer && item in S && !item.isContainer && types(item.id).stackable
    requires types(item.id).pickupable
    requires 1 <= count < item.count && count <= MAX_STACK && !flags.noLimit && !flags.childIsOwner
    requires item.parent == null && (flags.ignoreAutoStack || CanTake(types, c, item, count))
    modifies S
    ensures S <= T && fresh(T - S) && Forest(types, T) && WellStocked(types, T)
    ensures remainderCount == (if flags.ignoreAutoStack && |old(c.itemlist)| >= c.maxSize then count else 0)
    ensures OthersKept(S, c) && Joined(S, T, c, item) && item.parent == null
    ensures Content(c.itemlist) ==
      if flags.ignoreAutoStack && |old(c.itemlist)| >= c.maxSize then old(Content(c.itemlist))
      else Stowed(types, old(Content(c.itemlist)), old(KindOf(item)), count, !flags.ignoreAutoStack)
    ensures |c.itemlist| <= |old(c.itemlist)| || |c.itemlist| <= c.maxSize
    decreases count, 8
  {
    hide Forest, WellStocked, Linkage, Count, Content, HasPlace, CanTake, Added, Lost, Stowed, AddOutcome, Chosen,
         Joins, Landed, Faces, TargetOf, Stocked;
    remainderCount := 0;
    var remainderItem := CloneStack(types, item, count, S);
    RemainderOutcome(types, S + {remainderItem}, c, item, remainderItem, flags);
    var r, rc, rd;
    r, rc, rd, T := InternalAddItem(types, c, remainderItem, INDEX_WHEREEVER, flags, false, S + {remainderItem});
    if r != NoError {
      remainderCount := count;
    }
  }

  lemma {:induction false} ChainLinked(S: set<Item>, c: Item, i: nat)
    requires Linkage(S) && c in S && c.isContainer && i < |c.path|
    ensures c.path[i].isContainer
  {
    PathIsParentChain(S, c);
    if i > 0 {
      assert c.path[i - 1].Linked(S);
    }
  }

  /** A copy of a loose stack, with a count that its container can take, is added and stowed; without auto-stacking it
    is refused exactly when no slot is free. */
  lemma {:induction false} RemainderOutcome(types: Types, S: set<Item>, c: Item, item: Item, copy: Item, flags: Flags)
    requires Forest(types, S) && WellStocked(types, S) && c in S && c.isContainer && item in S && copy in S
    requires types(copy.id).stackable && types(copy.id).pickupable && 1 <= copy.count <= MAX_STACK
    requires !flags.noLimit && !flags.childIsOwner
    requires item.parent == null && copy.parent == null && !copy.isContainer && KindOf(copy) == KindOf(item)
    requires flags.ignoreAutoStack || CanTake(types, c, item, copy.count)
    ensures AddOutcome(types, c, INDEX_WHEREEVER, copy, flags) != NoError <==>
      flags.ignoreAutoStack && |c.itemlist| >= c.maxSize
    ensures var d := Chosen(types, c, INDEX_WHEREEVER, copy, flags);
      var s, auto, open := Content(c.itemlist), !flags.ignoreAutoStack, |c.itemlist| < c.maxSize;
      && d.cylinder == c && SlotOf(d) < |c.itemlist|
      && (|c.itemlist| >= c.maxSize && AddOutcome(types, c, INDEX_WHEREEVER, copy, flags) == NoError ==>
        Joins(types, d, copy))
      && Added(types, s, StackOf(copy), SlotOf(d), auto, open) == Stowed(types, s, KindOf(item), copy.count, auto)
  {
    assert Linkage(S) && c.Linked(S) && Stocked(types, c);
    assert copy !in c.path by {
      if copy in c.path {
        PathIsParentChain(S, c);
        var i :| 0 <= i < |c.path| && c.path[i] == copy;
        ChainLinked(S, c, i);
      }
    }
    RoomForCopy(c.itemlist, item, copy);
    StackIsAdded(types, c, copy, flags, S);
    AddedIsStowed(types, Content(c.itemlist), StackOf(copy), !flags.ignoreAutoStack);
  }

  /** The item itself is now the first child of `c`, with all it holds, and nothing was copied. */
  twostate predicate PutFirst(S: set<Item>, new T: set<Item>, c: Item, item: Item)
    reads *
  {
    && T == S && item.parent == c && c.itemlist == [item] + old(c.itemlist)
    && item.itemlist == old(item.itemlist) && StackOf(item) == old(StackOf(item))
  }

  /** The stack found at the destination takes a part of `item`, or all of it. */
  ghost predicate Takes(types: Types, a: map<Item, Face>, d: Destination, item: Item)
    requires item in a
  {
    && types(a[item].id).stackable && d.toItem != null && d.toItem != item && d.toItem in a
    && a[d.toItem].id == a[item].id && a[d.toItem].attrs == a[item].attrs && a[d.toItem].count < MAX_STACK
  }

  /** Where an item that was added is: if the stack at the destination took any of it, that stack has grown, up to its full
    size, and the item stays loose; otherwise the item itself, with all it holds, is the first child there. */
  ghost predicate Landed(types: Types, a: map<Item, Face>, b: map<Item, Face>, d: Destination, item: Item) {
    && a.Keys <= b.Keys && item in a && d.cylinder in a
    && if Takes(types, a, d, item)
       then b[item].parent == null && b[d.toItem].count == Least(a[d.toItem].count + a[item].count)
       else a.Keys == b.Keys && b[item] == a[item].(parent := d.cylinder)
            && b[d.cylinder].list == [item] + a[d.cylinder].list
  }

  twostate lemma {:induction false} ItemLanded(new types: Types, new S: set<Item>, new T: set<Item>, new d: Destination,
                                               new item: Item)
    requires old(allocated(types)) && old(allocated(S)) && old(allocated(d)) && old(allocated(item))
    requires S <= T && item in S && d.cylinder in S && old(item.parent) == null && item != d.cylinder
    requires d.toItem != null ==> d.toItem in S
    requires old(Joins(types, d, item)) ==>
      item.parent == null && d.toItem.count == Least(old(d.toItem.count) + old(item.count))
    requires old(!Joins(types, d, item)) ==> PutFirst(S, T, d.cylinder, item)
    ensures Landed(types, old(Faces(S)), Faces(T), d, item)
  {
  }

  /** What is left of `item` after merging, if anything: a smaller stack is added wherever there is room, an untouched
    item takes a slot of its own. */
  method AddRest(types: Types, c: Item, index: nat, item: Item, count: nat, flags: Flags, ghost S: set<Item>)
    returns (remainderCount: nat, ghost T: set<Item>)
    requires TypesOk(types) && Forest(types, S) && WellStocked(types, S)
    requires c in S && c.isContainer && item in S && item.parent == null && item !in c.path && !item.isContainer
    requires types(item.id).stackable && types(item.id).pickupable && 1 <= item.count <= MAX_STACK
    requires count <= item.count
    requires !flags.noLimit && !flags.childIsOwner
    requires 0 < count < item.count ==> flags.ignoreAutoStack || CanTake(types, c, item, count)
    requires count == item.count ==> index < c.maxSize
    modifies S
    ensures S <= T && fresh(T - S) && Forest(types, T) && WellStocked(types, T) && OthersKept(S, c)
    ensures Joined(S, T, c, item)
    ensures var x, auto, open := old(StackOf(item)), !flags.ignoreAutoStack, |old(c.itemlist)| < c.maxSize;
      && Content(c.itemlist) == Rested(types, old(Content(c.itemlist)), x, count, auto, open)
      && remainderCount == RestLost(x, count, auto, open)
    ensures if count == old(item.count) then PutFirst(S, T, c, item) else item.parent == null
    ensures count == 0 ==> unchanged(S) && T == S
    ensures |c.itemlist| > |old(c.itemlist)| && |c.itemlist| > c.maxSize <==>
      count == old(item.count) && |old(c.itemlist)| >= c.maxSize
    decreases item.count, 4
  {
    hide Forest, WellStocked, Linkage, Count, Content, CanTake, Stowed;
    T, remainderCount := S, 0;
    if count == 0 {
      NothingStowed(types, Content(c.itemlist), KindOf(item), !flags.ignoreAutoStack);
    } else if item.count != count {
      remainderCount, T := AddRemainder(types, c, item, count, flags, S);
    } else {
      PutInto(types, c, index, item, S);
    }
  }

  lemma {:induction false} NotTooMany(types: Types, S: set<Item>, x: Item)
    requires WellStocked(types, S) && x in S && types(x.id).stackable && x.parent != null
    ensures x.count <= MAX_STACK
  {
    assert Stocked(types, x);
  }

  lemma {:induction false} StackFacts(types: Types, S: set<Item>, c: Item, index: nat, item: Item)
    requires Forest(types, S) && WellStocked(types, S) && c in S && item in S && index < |c.itemlist|
    requires types(c.itemlist[index].id).stackable && types(item.id).stackable
    ensures Linkage(S) && c.itemlist[index].count <= MAX_STACK && !item.isContainer && c.itemlist[index].parent == c
    ensures Content(c.itemlist)[index] == StackOf(c.itemlist[index])
  {
    assert Linkage(S) && c.Linked(S) && Stocked(types, c.itemlist[index]) && Stocked(types, item);
  }

  twostate lemma {:induction false} RestFits(new types: Types, new S: set<Item>, new c: Item, new toItem: Item,
                                             new item: Item, new count: nat)
    requires old(allocated(types)) && old(allocated(S)) && old(allocated(c)) && old(allocated(toItem))
    requires old(allocated(item))
    requires c in S && toItem in S && item in S && old(Linkage(S)) && toItem in c.itemlist && toItem != item
    requires unchanged(S`itemlist) && forall x :: x in S && x != toItem ==> StackOf(x) == old(StackOf(x))
    requires old(item.parent) == null && old(Alike(toItem, item)) && old(toItem.count) <= MAX_STACK
    requires 0 < count < item.count ==> toItem.count == MAX_STACK && count == item.count - (MAX_STACK - old(toItem.count))
    ensures 0 < count < item.count && old(CanTake(types, c, item, item.count)) ==> CanTake(types, c, item, count)
  {
    hide Linkage, CanTake;
    if 0 < count < item.count && old(CanTake(types, c, item, item.count)) {
      StillCanTake(types, S, c, toItem, item);
    }
  }

  lemma {:induction false} NothingStowed(types: Types, s: seq<Stack>, x: Stack, auto: bool)
    ensures Stowed(types, s, x, 0, auto) == s
  {
  }

  lemma {:induction false} StackFilled(types: Types, c: Item, toItem: Item, item: Item, index: nat, n: nat, auto: bool,
                                       open: bool)
    returns (filled: seq<Stack>)
    requires index < |c.itemlist| && c.itemlist[index] == toItem && types(item.id).stackable && 1 <= item.count
    requires Alike(item, toItem) && toItem.count <= MAX_STACK
    requires n == if MAX_STACK - toItem.count < item.count then MAX_STACK - toItem.count else item.count
    ensures filled == Content(c.itemlist)[index := Updated(types, StackOf(toItem), toItem.count + n)]
    ensures var s, x := Content(c.itemlist), StackOf(item);
      && Added(types, s, x, index, auto, open) == Rested(types, filled, x, item.count - n, auto, open)
      && Lost(types, s, x, index, auto, open) == RestLost(x, item.count - n, auto, open)
  {
    hide Rested, Updated;
    filled := Content(c.itemlist)[index := Updated(types, StackOf(toItem), toItem.count + n)];
  }

  /** A count cut off at the size of a stack. */
  function Least(n: nat): nat {
    if n < MAX_STACK then n else MAX_STACK
  }

  /** The stack `toItem` of `c` takes what it can of `item`; `count` units remain. */
  method FillStack(types: Types, c: Item, index: nat, toItem: Item, item: Item, maxQueryCount: nat,
                   ghost flags: Flags, ghost S: set<Item>) returns (count: nat)
    requires TypesOk(types) && Forest(types, S) && WellStocked(types, S)
    requires c in S && c.isContainer && item in S && item.parent == null && toItem in S && toItem != item
    requires types(item.id).stackable && 1 <= item.count <= MAX_STACK && item.count <= maxQueryCount
    requires index < |c.itemlist| && c.itemlist[index] == toItem && Alike(item, toItem)
    requires HasRoomFor(toItem, item) ==> flags.ignoreAutoStack || CanTake(types, c, item, item.count)
    modifies toItem`id, toItem`attrs, toItem`count, S`totalWeight
    ensures Forest(types, S) && WellStocked(types, S) && OthersKept(S, c)
    ensures toItem.id == old(toItem.id)
    ensures toItem.count ==
      if old(HasRoomFor(toItem, item)) then Least(old(toItem.count) + item.count) else old(toItem.count)
    ensures 0 < count < item.count ==> toItem.count == MAX_STACK
    ensures count <= item.count && !item.isContainer && StackOf(item) == old(StackOf(item))
    ensures count < item.count <==> old(HasRoomFor(toItem, item))
    ensures 0 < count < item.count ==> flags.ignoreAutoStack || CanTake(types, c, item, count)
    ensures var x, auto, open := old(StackOf(item)), !flags.ignoreAutoStack, |c.itemlist| < c.maxSize;
      && Added(types, old(Content(c.itemlist)), x, index, auto, open) ==
        Rested(types, Content(c.itemlist), x, count, auto, open)
      && Lost(types, old(Content(c.itemlist)), x, index, auto, open) == RestLost(x, count, auto, open)
  {
    hide Forest, WellStocked, Linkage, Count, Content, CanTake, Added, Lost, Rested, RestLost, Updated, Gained, Stocked,
         TypesOk;
    StackFacts(types, S, c, index, item);
    var m := if item.count < maxQueryCount then item.count else maxQueryCount;
    var n := if MAX_STACK - toItem.count < m then MAX_STACK - toItem.count else m;
    ghost var filled := StackFilled(types, c, toItem, item, index, n, !flags.ignoreAutoStack, |c.itemlist| < c.maxSize);
    GrowStack(types, c, toItem, n, index, S);
    count := m - n;
    RestFits(types, S, c, toItem, item, count);
  }

  /** `item` is merged into the stack `toItem` of `c`; what does not fit is added as a smaller stack,
    or as `item` itself when `toItem` took nothing. */
  method AddToStack(types: Types, c: Item, index: nat, toItem: Item, item: Item, maxQueryCount: nat, flags: Flags,
                    ghost S: set<Item>)
    returns (remainderCount: nat, ghost T: set<Item>)
    requires TypesOk(types) && Forest(types, S) && WellStocked(types, S)
    requires c in S && c.isContainer && item in S && item.parent == null && item !in c.path && toItem in S
    requires toItem != item
    requires types(item.id).stackable && types(item.id).pickupable && 1 <= item.count <= MAX_STACK
    requires item.count <= maxQueryCount
    requires index < |c.itemlist| && c.itemlist[index] == toItem && Alike(item, toItem)
    requires !flags.noLimit && !flags.childIsOwner
    requires HasRoomFor(toItem, item) ==> flags.ignoreAutoStack || CanTake(types, c, item, item.count)
    requires !HasRoomFor(toItem, item) ==> index < c.maxSize
    modifies S
    ensures S <= T && fresh(T - S) && Forest(types, T) && WellStocked(types, T) && OthersKept(S, c)
    ensures Joined(S, T, c, item)
    ensures var s, x, auto, open := old(Content(c.itemlist)), old(StackOf(item)), !flags.ignoreAutoStack,
      |old(c.itemlist)| < c.maxSize;
      && Content(c.itemlist) == Added(types, s, x, index, auto, open)
      && remainderCount == Lost(types, s, x, index, auto, open)
    ensures if old(HasRoomFor(toItem, item))
            then item.parent == null && toItem.count == Least(old(toItem.count) + old(item.count))
            else PutFirst(S, T, c, item)
    ensures |c.itemlist| > |old(c.itemlist)| && |c.itemlist| > c.maxSize <==>
      |old(c.itemlist)| >= c.maxSize && old(!HasRoomFor(toItem, item))
    decreases item.count, 5
  {
    hide Forest, WellStocked, Linkage, Count, Content, CanTake, Added, Lost, Rested, RestLost;
    StackFacts(types, S, c, index, item);
    var count := FillStack(types, c, index, toItem, item, maxQueryCount, flags, S);
    remainderCount, T := AddRest(types, c, index, item, count, flags, S);
    NotTooMany(types, T, toItem);
  }

  lemma {:induction false} AddedWhole(types: Types, d: Destination, item: Item, auto: bool)
    requires Settled(d) && (!types(item.id).stackable || d.toItem == null || !Alike(item, d.toItem))
    ensures SlotOf(d) < |d.cylinder.itemlist|
    ensures var s, x, t := Content(d.cylinder.itemlist), StackOf(item), SlotOf(d);
      var open := |d.cylinder.itemlist| < d.cylinder.maxSize;
      Added(types, s, x, t, auto, open) == [x] + s && Lost(types, s, x, t, auto, open) == 0
  {
    if d.toItem != null {
      assert Content(d.cylinder.itemlist)[d.index] == StackOf(d.toItem);
    }
  }

  /** The effect of `internalAddItem` once its checks have passed. */
  method CommitAdd(types: Types, d: Destination, item: Item, maxQueryCount: nat, flags: Flags, ghost S: set<Item>)
    returns (remainderCount: nat, ghost T: set<Item>)
    requires TypesOk(types) && Forest(types, S) && WellStocked(types, S)
    requires d.cylinder in S && Settled(d) && item in S && item.parent == null && item !in d.cylinder.path
    requires types(item.id).pickupable
    requires (types(item.id).stackable ==> 1 <= item.count <= MAX_STACK && item.count <= maxQueryCount)
    requires !flags.noLimit && !flags.childIsOwner
    requires if Joins(types, d, item) then flags.ignoreAutoStack || CanTake(types, d.cylinder, item, item.count)
             else d.index < d.cylinder.maxSize
    modifies S
    ensures S <= T && fresh(T - S) && Forest(types, T) && WellStocked(types, T) && OthersKept(S, d.cylinder)
    ensures Joined(S, T, d.cylinder, item)
    ensures var s, x, t := old(Content(d.cylinder.itemlist)), old(StackOf(item)), SlotOf(d);
      var auto, open := !flags.ignoreAutoStack, |old(d.cylinder.itemlist)| < d.cylinder.maxSize;
      && Content(d.cylinder.itemlist) == Added(types, s, x, t, auto, open)
      && remainderCount == Lost(types, s, x, t, auto, open)
    ensures Landed(types, old(Faces(S)), Faces(T), d, item)
    ensures |d.cylinder.itemlist| > |old(d.cylinder.itemlist)| && |d.cylinder.itemlist| > d.cylinder.maxSize <==>
      |old(d.cylinder.itemlist)| >= d.cylinder.maxSize && old(!Joins(types, d, item))
    decreases item.count, 6
  {
    assert d.cylinder.Linked(S) && item.Linked(S);
    hide Forest, WellStocked, Linkage, Count, Content, Stocked, CanTake, Added, Lost, Faces, Landed;
    T, remainderCount := S, 0;
    if types(item.id).stackable && d.toItem != null && Alike(item, d.toItem) {
      remainderCount, T := AddToStack(types, d.cylinder, d.index, d.toItem, item, maxQueryCount, flags, S);
    } else {
      AddedWhole(types, d, item, !flags.ignoreAutoStack);
      PutInto(types, d.cylinder, d.index, item, S);
    }
    ItemLanded(types, S, T, d, item);
  }

  twostate lemma {:induction false} NothingJoined(new S: set<Item>, new c: Item, new item: Item)
    requires old(allocated(S)) && old(allocated(c)) && old(allocated(item)) && unchanged(S) && item in S && Linkage(S)
    ensures Joined(S, S, c, item) && OthersKept(S, c)
  {
    forall x | x in S
      ensures Content(x.itemlist) == old(Content(x.itemlist))
    {
      assert x.Linked(S);
    }
  }

  lemma {:induction false} LinkedForest(types: Types, S: set<Item>)
    requires Forest(types, S)
    ensures Linkage(S)
  {
  }

  /** `Game::internalAddItem` into a plain container without FLAG_NOLIMIT.  The destination grows beyond its capacity
    if and only if the add is one that `Overflows`. */
  method InternalAddItem(types: Types, toCylinder: Item, item: Item, index: int, flags: Flags, test: bool,
                         ghost S: set<Item>)
    returns (ret: ReturnValue, remainderCount: nat, d: Destination, ghost T: set<Item>)
    requires TypesOk(types) && Forest(types, S) && WellStocked(types, S)
    requires toCylinder in S && toCylinder.isContainer && item in S && item.parent == null
    requires types(item.id).stackable ==> 1 <= item.count <= MAX_STACK
    requires !flags.noLimit && !flags.childIsOwner
    modifies S
    ensures S <= T && fresh(T - S) && Forest(types, T) && WellStocked(types, T)
    ensures d.cylinder in S && d == old(Chosen(types, toCylinder, index, item, flags))
    ensures d.cylinder == old(TargetOf(toCylinder, index))
    ensures SlotOf(d) < |old(d.cylinder.itemlist)|
    ensures ret == old(AddOutcome(types, toCylinder, index, item, flags))
    ensures ret != NoError || test ==> unchanged(S) && T == S && remainderCount == 0
    ensures OthersKept(S, d.cylinder) && Joined(S, T, d.cylinder, item)
    ensures ret == NoError && !test ==>
      var s, x, t := old(Content(d.cylinder.itemlist)), old(StackOf(item)), SlotOf(d);
      var auto, open := !flags.ignoreAutoStack, |old(d.cylinder.itemlist)| < d.cylinder.maxSize;
      && Content(d.cylinder.itemlist) == Added(types, s, x, t, auto, open)
      && remainderCount == Lost(types, s, x, t, auto, open)
    ensures ret == NoError && !test ==> Landed(types, old(Faces(S)), Faces(T), d, item)
    ensures |d.cylinder.itemlist| > |old(d.cylinder.itemlist)| && |d.cylinder.itemlist| > d.cylinder.maxSize <==>
      !test && old(Overflows(types, toCylinder, index, item, flags))
    decreases item.count, 7
  {
    hide Forest, WellStocked, Linkage, Count, Content, CanTake, Chosen, AddOutcome, Added, Lost, Joins, Overflows, Landed,
         Faces, Settled, StackOf;
    LinkedForest(types, S);
    OverflowsExactly(types, toCylinder, index, item, flags, S);
    T, remainderCount := S, 0;
    var maxQueryCount;
    ret, d, maxQueryCount := PlanAdd(types, toCylinder, item, index, flags, S);
    if ret != NoError || test {
      NothingJoined(S, d.cylinder, item);
      return;
    }
    remainderCount, T := CommitAdd(types, d, item, maxQueryCount, flags, S);
  }

  /** How many of an item type a list of containers holds directly. */
  ghost function Held(id: nat, stock: map<Item, seq<Stack>>, cs: seq<Item>): nat
    requires forall i :: 0 <= i < |cs| ==> cs[i] in stock
  {
    if cs == [] then 0 else Count(id, stock[cs[0]]) + Held(id, stock, cs[1..])
  }

  /** A move conserves the number of every item type over any list of containers without
    repetitions that includes both ends. */
  lemma {:induction false} MoveConservesTotals(before: map<Item, seq<Stack>>, after: map<Item, seq<Stack>>, from: Item,
                                               to: Item, id: nat, m: nat, k: nat, cs: seq<Item>)
    requires Moved(before, after, from, to, id, m) && forall i :: 0 <= i < |cs| ==> cs[i] in before
    requires forall i, j :: 0 <= i < j < |cs| ==> cs[i] != cs[j]
    ensures Held(k, after, cs) == Held(k, before, cs)
      + (if k == id && from != to then (if to in cs then m else 0) - (if from in cs then m else 0) else 0)
  {
    if cs != [] {
      MoveConservesTotals(before, after, from, to, id, m, k, cs[1..]);
      assert cs[0] !in cs[1..];
    }
  }
}
