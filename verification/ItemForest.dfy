/** The forest of items and containers (src/container.cpp, src/item.cpp).

  Every C++ `Item` is one object of class `Item`; those built as `Container` have
  `isContainer` set.  A container keeps its children in `itemlist`, front first, and caches the
  sum of their weights in `totalWeight`; every change of a child's weight is pushed up the
  parent chain by `UpdateItemWeight`.

  The ghost field `path` lists an item followed by its parent, grandparent, and so on.  Because
  a parent's path is strictly shorter, a linked forest has no parent cycle, and the upward
  recursion terminates. */
module ItemForest {

  /** The part of an item type that the forest reads. */
  datatype ItemType = ItemType(
    weight: nat, stackable: bool, pickupable: bool, moveable: bool,
    fluid: bool, charges: nat, decayTime: nat, stopTime: bool, decayTo: int)

  /** The table `Item::items`, total because every id has an entry. */
  type Types = nat -> ItemType

  datatype Attr = CorpseOwner | Duration | DecayState | WeightAttr | FluidType | Charges | OtherAttr(code: nat)

  type Attrs = map<Attr, int>

  /** The attributes left by `Item::setID`. */
  function AttrsAfterSetID(types: Types, prevId: nat, newId: nat, attrs: Attrs): Attrs {
    var it := types(newId);
    var cleared :=
      if it.decayTime == 0 && !it.stopTime && it.decayTo < 0 then attrs - {DecayState, Duration} else attrs;
    var owned := cleared - {CorpseOwner};
    if it.decayTime > 0 && (!types(prevId).stopTime || Duration !in owned) then
      owned[DecayState := 0][Duration := it.decayTime * 1000]
    else
      owned
  }

  /** Count and attributes left by `Item::setSubType`; the count is one byte, the argument two. */
  function AfterSubType(it: ItemType, count: nat, attrs: Attrs, n: nat): (nat, Attrs) {
    if it.fluid then (count, attrs[FluidType := n % 0x10000])
    else if it.stackable then (n % 0x100, attrs)
    else if it.charges != 0 then (count, attrs[Charges := n % 0x10000])
    else (n % 0x100, attrs)
  }

  /** The first position of `x`, or -1. */
  function IndexOf<T(==)>(s: seq<T>, x: T): (i: int)
    ensures i == -1 <==> x !in s
    ensures i != -1 ==> 0 <= i < |s| && s[i] == x && x !in s[..i]
  {
    if s == [] then -1 else if s[0] == x then 0 else
      var rest := IndexOf(s[1..], x);
      if rest == -1 then -1 else rest + 1
  }

  ghost function Weights(types: Types, s: seq<Item>): (w: seq<int>)
    reads s
  {
    seq(|s|, i requires 0 <= i < |s| reads s => s[i].Weight(types))
  }

  function Sum(s: seq<int>): int {
    if s == [] then 0 else s[0] + Sum(s[1..])
  }

  /** Links agree everywhere. */
  ghost predicate Linkage(S: set<Item>)
    reads S`parent, S`itemlist, S`path
  {
    forall x {:trigger x.Linked(S)} :: x in S ==> x.Linked(S)
  }

  /** Links agree and every cached weight, but those of `off`, is the true sum. */
  ghost predicate ForestBut(types: Types, S: set<Item>, off: set<Item>)
    reads S
  {
    && Linkage(S)
    && forall c {:trigger c.Weighed(types)} :: c in S && c !in off ==> c.Linked(S) && c.Weighed(types)
  }

  /** Links agree and every cached weight is the true sum. */
  ghost predicate Forest(types: Types, S: set<Item>)
    reads S
  {
    ForestBut(types, S, {})
  }

  class Item {
    const isContainer: bool
    const maxSize: nat
    var id: nat
    var count: nat
    var attrs: Attrs
    var parent: Item?
    var itemlist: seq<Item>
    var totalWeight: int
    ghost var path: seq<Item>

    constructor (isContainer: bool, maxSize: nat, id: nat, count: nat, attrs: Attrs)
      ensures this.isContainer == isContainer && this.maxSize == maxSize
      ensures this.id == id && this.count == count && this.attrs == attrs
      ensures parent == null && itemlist == [] && totalWeight == 0 && path == [this]
    {
      this.isContainer, this.maxSize := isContainer, maxSize;
      this.id, this.count, this.attrs := id, count, attrs;
      parent, itemlist, totalWeight, path := null, [], 0, [this];
    }

    /** `Item::getWeight` without the content of a container. */
    function OwnWeight(types: Types): int
      reads `id, `count, `attrs
    {
      var base := if WeightAttr in attrs then attrs[WeightAttr] else types(id).weight;
      if types(id).stackable then base * (if count < 1 then 1 else count) else base
    }

    /** `Container::getWeight` or `Item::getWeight`. */
    function Weight(types: Types): int
      reads `id, `count, `attrs, `totalWeight
    {
      if isContainer then OwnWeight(types) + totalWeight else OwnWeight(types)
    }

    /** The links of this item agree with those of its parent and children. */
    ghost predicate Linked(S: set<Item>)
      reads S`parent, S`itemlist, S`path
      requires this in S
    {
      && (parent != null ==> parent in S && parent.isContainer && this in parent.itemlist)
      && (forall i :: 0 <= i < |itemlist| ==> itemlist[i] in S && itemlist[i].parent == this)
      && (forall i, j :: 0 <= i < j < |itemlist| ==> itemlist[i] != itemlist[j])
      && (!isContainer ==> itemlist == [])
      && path == [this] + (if parent == null then [] else parent.path)
    }

    /** `totalWeight` is the sum of the children's weights. */
    ghost predicate Weighed(types: Types)
      reads this, itemlist
    {
      totalWeight == Sum(Weights(types, itemlist))
    }

    /** `Container::updateItemWeight`: the difference reaches this container and every ancestor.
      `start` is the container whose content is being changed; the callers balance it themselves. */
    method UpdateItemWeight(types: Types, diff: int, ghost S: set<Item>, ghost start: Item)
      requires this in S && start in S && isContainer && ForestBut(types, S, {this, start})
      requires this != start ==> Sum(Weights(types, itemlist)) == totalWeight + diff
      modifies S`totalWeight
      ensures ForestBut(types, S, {start}) && TotalsShifted(S, this, diff)
      decreases |path|
    {
      assert Linked(S) && (parent != null ==> parent.Linked(S));
      if parent != null && this in parent.path { PathIsSuffix(S, parent, this); }
      hide Sum, Weights, ForestBut, Linkage, OwnWeight;
      totalWeight := totalWeight + diff;
      TotalBumped(types, S, this, start, diff);
      if parent != null {
        parent.UpdateItemWeight(types, diff, S, start);
      }
    }

    /** `Container::getThingIndex` */
    method GetThingIndex(thing: Item) returns (index: int)
      ensures index == IndexOf(itemlist, thing)
    {
      index := 0;
      for i := 0 to |itemlist|
        invariant index == i
        invariant IndexOf(itemlist, thing) == if IndexOf(itemlist[i..], thing) == -1 then -1
          else i + IndexOf(itemlist[i..], thing)
      {
        if itemlist[i] == thing { return; }
        index := index + 1;
      }
      index := -1;
    }

    /** Links a loose item below this container, at `index`. */
    method Adopt(types: Types, item: Item, index: nat, ghost S: set<Item>)
      requires this in S && item in S && isContainer && index <= |itemlist| && ForestBut(types, S, {this})
      requires item.parent == null && item !in path
      modifies this`itemlist, item`parent, S`path
      ensures ForestBut(types, S, {this}) && Adopted(S, this, item, index)
      ensures item.parent == this && path == old(path)
      ensures itemlist == old(itemlist)[..index] + [item] + old(itemlist)[index..]
    {
      assert Linkage(S);
      hide Linkage, Item.Linked, ForestBut, Attached, Item.Weight, Item.Weighed;
      Link(item, index, S);
      LinkageAfterAttach(S, this, item);
      ContentsUntouched(types, S, this);
    }

    method Link(item: Item, index: nat, ghost S: set<Item>)
      requires this in S && item in S && isContainer && index <= |itemlist| && Linkage(S)
      requires item.parent == null && item !in path
      modifies this`itemlist, item`parent, S`path
      ensures Adopted(S, this, item, index) && item.parent == this && path == old(path)
    {
      assert Linked(S) && item.Linked(S);
      hide Linkage;
      item.parent := this;
      itemlist := itemlist[..index] + [item] + itemlist[index..];
      forall x | x in S && item in x.path { x.path := x.path + path; }
    }

    /** Unlinks the child at `index`, which becomes loose. */
    method Disown(types: Types, item: Item, index: nat, ghost S: set<Item>)
      requires this in S && item in S && ForestBut(types, S, {this})
      requires index < |itemlist| && itemlist[index] == item
      modifies this`itemlist, item`parent, S`path
      ensures ForestBut(types, S, {this}) && Disowned(S, this, item, index)
      ensures item.parent == null && path == old(path)
      ensures itemlist == old(itemlist)[..index] + old(itemlist)[index + 1..]
    {
      assert Linkage(S);
      hide Linkage, Item.Linked, ForestBut, Detached, Item.Weight, Item.Weighed;
      Unlink(item, index, S);
      LinkageAfterDetach(S, this, item);
      ContentsUntouched(types, S, this);
    }

    method Unlink(item: Item, index: nat, ghost S: set<Item>)
      requires this in S && item in S && Linkage(S) && index < |itemlist| && itemlist[index] == item
      modifies this`itemlist, item`parent, S`path
      ensures Disowned(S, this, item, index) && item.parent == null && path == old(path)
    {
      assert Linked(S) && item.Linked(S);
      ChildrenOffPath(S, this);
      Without(itemlist, index);
      hide Linkage, PathUpTo;
      item.parent := null;
      itemlist := itemlist[..index] + itemlist[index + 1..];
      forall x | x in S && item in x.path { x.path := PathUpTo(x.path, |path|); }
    }

    /** `Container::internalAddThing`: the item becomes the first child. */
    method InternalAddThing(types: Types, item: Item, ghost S: set<Item>)
      requires this in S && item in S && isContainer && Forest(types, S)
      requires item.parent == null && item !in path
      modifies this`itemlist, item`parent, S`path, S`totalWeight
      ensures Forest(types, S) && Adopted(S, this, item, 0)
      ensures item.parent == this && itemlist == [item] + old(itemlist)
      ensures TotalsShifted(S, this, old(item.Weight(types)))
    {
      hide Forest, ForestBut, Adopted;
      ForestWeakens(types, S, this);
      Adopt(types, item, 0, S);
      UpdateItemWeight(types, item.Weight(types), S, this);
      ForestAfterInsert(types, S, this, item, 0);
    }

    /** `Container::addThing`: an index beyond the capacity drops the item. */
    method AddThing(types: Types, index: int, item: Item, ghost S: set<Item>)
      requires this in S && item in S && isContainer && Forest(types, S)
      requires item.parent == null && item !in path
      modifies this`itemlist, item`parent, S`path, S`totalWeight
      ensures Forest(types, S)
      ensures index < maxSize ==> Adopted(S, this, item, 0) && TotalsShifted(S, this, old(item.Weight(types)))
      ensures index < maxSize ==> item.parent == this && itemlist == [item] + old(itemlist)
      ensures index >= maxSize ==> unchanged(S)
    {
      if index >= maxSize { return; }
      InternalAddThing(types, item, S);
    }

    /** `Container::addItemBack`: the item becomes the last child. */
    method AddItemBack(types: Types, item: Item, ghost S: set<Item>)
      requires this in S && item in S && isContainer && Forest(types, S)
      requires item.parent == null && item !in path
      modifies this`itemlist, item`parent, S`path, S`totalWeight
      ensures Forest(types, S) && Adopted(S, this, item, |old(itemlist)|)
      ensures TotalsShifted(S, this, old(item.Weight(types)))
    {
      hide Forest, ForestBut, Adopted;
      ForestWeakens(types, S, this);
      Adopt(types, item, |itemlist|, S);
      UpdateItemWeight(types, item.Weight(types), S, this);
      ForestAfterInsert(types, S, this, item, |old(itemlist)|);
    }

    /** `Container::updateThing`: the child gets a new id and subtype in place. */
    method UpdateThing(types: Types, thing: Item, itemId: nat, newCount: nat, ghost S: set<Item>)
      requires this in S && thing in S && isContainer && Forest(types, S)
      modifies thing`id, thing`attrs, thing`count, S`totalWeight
      ensures Forest(types, S)
      ensures thing !in itemlist ==> unchanged(S)
      ensures thing in itemlist ==> thing.id == itemId
      ensures thing in itemlist ==>
        (thing.count, thing.attrs) == AfterSubType(types(itemId), old(thing.count),
          AttrsAfterSetID(types, old(thing.id), itemId, old(thing.attrs)), newCount)
      ensures thing in itemlist ==> TotalsShifted(S, this, thing.OwnWeight(types) - old(thing.OwnWeight(types)))
    {
      var index := IndexOf(itemlist, thing);
      if index == -1 { return; }
      var oldWeight := thing.Weight(types);
      var after := AfterSubType(types(itemId), thing.count,
        AttrsAfterSetID(types, thing.id, itemId, thing.attrs), newCount);
      thing.id, thing.count, thing.attrs := itemId, after.0, after.1;
      ChildChanged(types, S, this, thing);
      UpdateItemWeight(types, -oldWeight + thing.Weight(types), S, this);
      BalancedAfterChange(types, S, this, thing, index);
    }

    /** The branch of `Container::removeThing` that leaves a smaller stack in place. */
    method Shrink(types: Types, thing: Item, n: nat, index: nat, ghost S: set<Item>)
      requires this in S && thing in S && isContainer && Forest(types, S)
      requires index < |itemlist| && itemlist[index] == thing
      modifies thing`count, S`totalWeight
      ensures Forest(types, S)
      ensures thing.count == if old(thing.count) >= n then (old(thing.count) - n) % 0x100 else 0
      ensures TotalsShifted(S, this, thing.OwnWeight(types) - old(thing.OwnWeight(types)))
    {
      var oldWeight := thing.Weight(types);
      thing.count := if thing.count >= n then (thing.count - n) % 0x100 else 0;
      ChildChanged(types, S, this, thing);
      UpdateItemWeight(types, -oldWeight + thing.Weight(types), S, this);
      BalancedAfterChange(types, S, this, thing, index);
    }

    /** The branch of `Container::removeThing` that unlinks the item. */
    method TakeOut(types: Types, thing: Item, index: nat, ghost S: set<Item>)
      requires this in S && thing in S && isContainer && Forest(types, S)
      requires index < |itemlist| && itemlist[index] == thing
      modifies this`itemlist, thing`parent, S`path, S`totalWeight
      ensures Forest(types, S) && Disowned(S, this, thing, index)
      ensures TotalsShifted(S, this, -old(thing.Weight(types)))
    {
      ChildrenOffPath(S, this);
      UpdateItemWeight(types, -thing.Weight(types), S, this);
      Disown(types, thing, index, S);
      BalancedAfterRemove(types, S, this, thing, index);
    }

    /** `Container::removeThing`: a stack loses `n` of its count, anything else is unlinked. */
    method RemoveThing(types: Types, thing: Item, n: nat, ghost S: set<Item>) returns (ghost index: int)
      requires this in S && thing in S && isContainer && Forest(types, S)
      modifies this`itemlist, thing`parent, thing`count, S`path, S`totalWeight
      ensures Forest(types, S) && index == IndexOf(old(itemlist), thing)
      ensures thing !in old(itemlist) ==> index == -1 && unchanged(S)
      ensures thing in old(itemlist) ==> 0 <= index < |old(itemlist)| && old(itemlist)[index] == thing
      ensures thing in old(itemlist) && types(thing.id).stackable && n != old(thing.count) ==>
        Shrunk(types, S, this, thing, n)
      ensures thing in old(itemlist) && !(types(thing.id).stackable && n != old(thing.count)) ==>
        TakenOut(types, S, this, thing, index)
    {
      var i := IndexOf(itemlist, thing);
      index := i;
      if i == -1 { return; }
      if types(thing.id).stackable && n != thing.count {
        Shrink(types, thing, n, i, S);
      } else {
        TakeOut(types, thing, i, S);
      }
    }

    /** Puts a loose item in the place of the child at `index`, which becomes loose. */
    method Exchange(types: Types, replaced: Item, item: Item, index: nat, ghost S: set<Item>)
      requires this in S && item in S && replaced in S && isContainer && ForestBut(types, S, {this})
      requires index < |itemlist| && itemlist[index] == replaced
      requires item.parent == null && item !in path
      modifies this`itemlist, item`parent, replaced`parent, S`path
      ensures ForestBut(types, S, {this})
      ensures itemlist == old(itemlist)[index := item]
      ensures item.parent == this && replaced.parent == null
    {
      assert Linked(S);
      hide ForestBut, Linkage, Adopted, Disowned, Weights, Sum, Item.OwnWeight, Item.Weight, Item.Weighed;
      ghost var all := itemlist;
      Disown(types, replaced, index, S);
      Adopt(types, item, index, S);
      SpliceIsUpdate(all, index, item);
    }

    /** `Container::replaceThing`: the item takes the place of the child at `index`, which becomes
      loose.  The weight is pushed before the links change; it does not depend on them. */
    method ReplaceThing(types: Types, index: nat, item: Item, ghost S: set<Item>)
      requires this in S && item in S && isContainer && Forest(types, S) && (set x | x in itemlist) <= S
      requires item.parent == null && item !in path
      modifies this`itemlist, item`parent, (set x | x in itemlist)`parent, S`path, S`totalWeight
      ensures Forest(types, S)
      ensures index >= |old(itemlist)| ==> unchanged(S)
      ensures index < |old(itemlist)| ==>
        (itemlist == old(itemlist)[index := item] && item.parent == this && old(itemlist)[index].parent == null
        && TotalsShifted(S, this, old(item.Weight(types)) - old(itemlist[index].Weight(types))))
    {
      if index >= |itemlist| { return; }
      var replaced := itemlist[index];
      assert Linked(S) && item.Linked(S);
      ChildrenOffPath(S, this);
      hide Linkage, Linked, Weights, Sum;
      UpdateItemWeight(types, -replaced.Weight(types) + item.Weight(types), S, this);
      Exchange(types, replaced, item, index, S);
      BalancedAfterReplace(types, S, this, item, index);
    }
  }

  /** Between the two states a stack below `c` lost `n` of its count. */
  twostate predicate Shrunk(types: Types, S: set<Item>, c: Item, item: Item, n: nat)
    requires c in S && item in S
    reads S
  {
    && item.count == (if old(item.count) >= n then (old(item.count) - n) % 0x100 else 0)
    && TotalsShifted(S, c, item.OwnWeight(types) - old(item.OwnWeight(types)))
    && unchanged(S`itemlist, S`parent, S`path)
  }

  /** Between the two states `item` left `c`. */
  twostate predicate TakenOut(types: Types, S: set<Item>, c: Item, item: Item, index: int)
    requires c in S && item in S
    reads S
  {
    && 0 <= index && Disowned(S, c, item, index)
    && item.parent == null && c.itemlist == old(c.itemlist)[..index] + old(c.itemlist)[index + 1..]
    && (forall x :: x in S && item !in old(x.path) ==> x.path == old(x.path))
    && item.count == old(item.count)
    && TotalsShifted(S, c, -old(item.Weight(types)))
  }

  /** Changing a child in place leaves every container but its parent balanced. */
  twostate lemma {:induction false} ChildChanged(new types: Types, new S: set<Item>, new c: Item, new item: Item)
    requires old(allocated(types)) && old(allocated(S)) && old(allocated(c)) && old(allocated(item))
    requires c in S && item in S && old(Forest(types, S)) && item in c.itemlist
    requires unchanged(S`parent, S`itemlist, S`path, S`totalWeight)
    requires forall y :: y in S && y != item ==> y.Weight(types) == old(y.Weight(types))
    ensures ForestBut(types, S, {c})
    ensures c in c.path && forall y :: y in c.itemlist ==> y in S && y !in c.path
  {
    ChildrenOffPath(S, c);
    assert c.Linked(S);
    forall x | x in S && x != c
      ensures x.Linked(S) && x.Weighed(types)
    {
      assert x.Linked(S);
      assert old(x.Weighed(types));
      assert Weights(types, x.itemlist) == old(Weights(types, x.itemlist));
    }
  }

  /** A container balances again once it counts a child's change of weight. */
  twostate lemma {:induction false} BalancedAfterChange(new types: Types, new S: set<Item>, new c: Item, new item: Item,
                                                        new k: nat)
    requires old(allocated(types)) && old(allocated(S)) && old(allocated(c)) && old(allocated(item))
    requires c in S && old(Forest(types, S)) && c.itemlist == old(c.itemlist)
    requires k < |c.itemlist| && c.itemlist[k] == item
    requires forall y :: y in c.itemlist && y != item ==> y.Weight(types) == old(y.Weight(types))
    requires c.totalWeight == old(c.totalWeight) + item.Weight(types) - old(item.Weight(types))
    ensures c.Weighed(types)
  {
    assert old(c.Linked(S)) && old(c.Weighed(types));
    var w := old(Weights(types, c.itemlist));
    assert Weights(types, c.itemlist) == w[k := item.Weight(types)];
    SumUpdate(w, k, item.Weight(types));
  }

  /** A container balances again once it counts another child in the place of one that left. */
  twostate lemma {:induction false} BalancedAfterReplace(new types: Types, new S: set<Item>, new c: Item,
                                                         new item: Item, new k: nat)
    requires old(allocated(types)) && old(allocated(S)) && old(allocated(c)) && old(allocated(item))
    requires c in S && old(Forest(types, S)) && k < |old(c.itemlist)|
    requires c.itemlist == old(c.itemlist)[k := item]
    requires forall y :: y in c.itemlist ==> y.Weight(types) == old(y.Weight(types))
    requires c.totalWeight == old(c.totalWeight) + item.Weight(types) - old(c.itemlist[k].Weight(types))
    ensures c.Weighed(types)
  {
    assert old(c.Linked(S)) && old(c.Weighed(types));
    var w := old(Weights(types, c.itemlist));
    assert Weights(types, c.itemlist) == w[k := item.Weight(types)];
    SumUpdate(w, k, item.Weight(types));
  }

  /** A container balances again once it no longer counts a child that left. */
  twostate lemma {:induction false} BalancedAfterRemove(new types: Types, new S: set<Item>, new c: Item, new item: Item,
                                                        new k: nat)
    requires old(allocated(types)) && old(allocated(S)) && old(allocated(c)) && old(allocated(item))
    requires c in S && old(Forest(types, S)) && k < |old(c.itemlist)| && old(c.itemlist)[k] == item
    requires c.itemlist == old(c.itemlist)[..k] + old(c.itemlist)[k + 1..]
    requires forall y :: y in c.itemlist ==> y.Weight(types) == old(y.Weight(types))
    requires c.totalWeight == old(c.totalWeight) - old(item.Weight(types))
    ensures c.Weighed(types)
  {
    assert old(c.Weighed(types));
    var w := old(Weights(types, c.itemlist));
    var v := Weights(types, c.itemlist);
    assert v == w[..k] + w[k + 1..];
    hide Weights;
    SumWithout(w, k);
  }

  /** What remains of a path above an item whose former parent had a path of length `above`. */
  function PathUpTo(p: seq<Item>, above: nat): seq<Item> {
    if above <= |p| then p[..|p| - above] else p
  }

  lemma {:induction false} SpliceIsUpdate(s: seq<Item>, k: nat, x: Item)
    requires k < |s|
    ensures var t := s[..k] + s[k + 1..]; t[..k] + [x] + t[k..] == s[k := x]
  {
  }

  lemma {:induction false} Without(s: seq<Item>, k: nat)
    requires k < |s| && forall i, j :: 0 <= i < j < |s| ==> s[i] != s[j]
    ensures forall y :: y in s[..k] + s[k + 1..] <==> y in s && y != s[k]
    ensures var t := s[..k] + s[k + 1..]; forall i, j :: 0 <= i < j < |t| ==> t[i] != t[j]
  {
    assert s == s[..k] + [s[k]] + s[k + 1..];
  }

  /** Between the two states `item` was unlinked from `c`. */
  twostate predicate Detached(S: set<Item>, c: Item, item: Item)
    requires c in S && item in S
    reads S`parent, S`itemlist, S`path
  {
    && old(item.parent) == c && item in old(c.itemlist)
    && item.parent == null
    && (forall y :: y in c.itemlist ==> y != item && y in old(c.itemlist))
    && (forall y :: y in old(c.itemlist) && y != item ==> y in c.itemlist)
    && (forall i, j :: 0 <= i < j < |c.itemlist| ==> c.itemlist[i] != c.itemlist[j])
    && (forall x :: x in S && x != item ==> x.parent == old(x.parent))
    && (forall x :: x in S && x != c ==> x.itemlist == old(x.itemlist))
    && (forall x :: x in S ==> x.path == if item in old(x.path) then PathUpTo(old(x.path), |old(c.path)|) else old(x.path))
  }

  /** Between the two states `item` was taken from `index` of `c`. */
  twostate predicate Disowned(S: set<Item>, c: Item, item: Item, index: nat)
    requires c in S && item in S
    reads S`parent, S`itemlist, S`path
  {
    && Detached(S, c, item)
    && index < |old(c.itemlist)| && old(c.itemlist)[index] == item
    && c.itemlist == old(c.itemlist)[..index] + old(c.itemlist)[index + 1..]
  }

  /** Unlinking `item` from `c` keeps the forest linked. */
  twostate lemma {:induction false} LinkageAfterDetach(new S: set<Item>, new c: Item, new item: Item)
    requires old(allocated(S)) && old(allocated(c)) && old(allocated(item))
    requires c in S && item in S && old(Linkage(S)) && Detached(S, c, item)
    ensures Linkage(S)
  {
    forall x | x in S
      ensures x.Linked(S)
    {
      PathAfterDetach(S, c, item, x);
      assert old(x.Linked(S));
      assert old(c.Linked(S));
      forall i | 0 <= i < |x.itemlist|
        ensures x.itemlist[i] in S && x.itemlist[i].parent == x
      {
        assert x.itemlist[i] in x.itemlist;
        assert x.itemlist[i] in old(x.itemlist);
      }
    }
  }

  twostate lemma {:induction false} PathAfterDetach(new S: set<Item>, new c: Item, new item: Item, new x: Item)
    requires old(allocated(S)) && old(allocated(c)) && old(allocated(item)) && old(allocated(x))
    requires c in S && item in S && x in S && old(Linkage(S)) && Detached(S, c, item)
    ensures x.parent == null || x.parent in S
    ensures x.path == [x] + (if x.parent == null then [] else x.parent.path)
  {
    assert old(x.Linked(S)) && old(item.Linked(S));
    if x != item && x.parent != null {
      var p := x.parent;
      assert old(x.path) == [x] + old(p.path);
      assert item in old(x.path) <==> item in old(p.path);
      if item in old(p.path) {
        OldPathIsSuffix(S, p, item);
      }
    }
  }

  twostate lemma {:induction false} OldPathIsSuffix(new S: set<Item>, new x: Item, new y: Item)
    requires old(allocated(S)) && old(allocated(x)) && old(allocated(y))
    requires old(Linkage(S)) && x in S && y in old(x.path)
    ensures |old(y.path)| <= |old(x.path)|
    decreases |old(x.path)|
  {
    assert old(x.Linked(S));
    if y != x {
      assert old(x.parent.Linked(S));
      OldPathIsSuffix(S, old(x.parent), y);
    }
  }

  /** Between the two states `item` was put below `c` at `index`. */
  twostate predicate Adopted(S: set<Item>, c: Item, item: Item, index: nat)
    requires c in S && item in S
    reads S`parent, S`itemlist, S`path
  {
    && Attached(S, c, item)
    && index <= |old(c.itemlist)|
    && c.itemlist == old(c.itemlist)[..index] + [item] + old(c.itemlist)[index..]
  }

  /** Between the two states every container from `c` upwards gained `diff`. */
  twostate predicate TotalsShifted(S: set<Item>, c: Item, diff: int)
    requires c in S
    reads S`totalWeight
  {
    forall x :: x in S ==> x.totalWeight == old(x.totalWeight) + (if x in old(c.path) then diff else 0)
  }

  /** Every weight is true again once the new child's weight was pushed up. */
  twostate lemma {:induction false} ForestAfterInsert(new types: Types, new S: set<Item>, new c: Item, new item: Item,
                                                      new k: nat)
    requires old(allocated(types)) && old(allocated(S)) && old(allocated(c)) && old(allocated(item))
    requires c in S && item in S && old(Forest(types, S)) && ForestBut(types, S, {c})
    requires Adopted(S, c, item, k) && c.path == old(c.path)
    requires TotalsShifted(S, c, old(item.Weight(types))) && unchanged(S`id, S`count, S`attrs)
    ensures Forest(types, S)
  {
    hide Attached, Sum;
    assert old(c.Weighed(types));
    ChildrenOffPath(S, c);
    var w := old(Weights(types, c.itemlist));
    assert Weights(types, c.itemlist) == w[..k] + [item.Weight(types)] + w[k..];
    SumInsert(w, k, item.Weight(types));
    ForestFromBut(types, S, c);
  }

  lemma {:induction false} ForestWeakens(types: Types, S: set<Item>, c: Item)
    requires Forest(types, S)
    ensures ForestBut(types, S, {c}) && {c, c} == {c}
  {
  }

  /** Between the two states `item` was linked below `c`. */
  twostate predicate Attached(S: set<Item>, c: Item, item: Item)
    requires c in S && item in S
    reads S`parent, S`itemlist, S`path
  {
    && old(item.parent) == null && item !in old(c.path) && c.isContainer
    && item.parent == c && item in c.itemlist
    && (forall y :: y in c.itemlist ==> y == item || y in old(c.itemlist))
    && (forall y :: y in old(c.itemlist) ==> y in c.itemlist)
    && (forall i, j :: 0 <= i < j < |c.itemlist| ==> c.itemlist[i] != c.itemlist[j])
    && (forall x :: x in S && x != item ==> x.parent == old(x.parent))
    && (forall x :: x in S && x != c ==> x.itemlist == old(x.itemlist))
    && (forall x :: x in S ==> x.path == if item in old(x.path) then old(x.path + c.path) else old(x.path))
  }

  /** Linking `item` below `c` keeps the forest linked. */
  twostate lemma {:induction false} LinkageAfterAttach(new S: set<Item>, new c: Item, new item: Item)
    requires old(allocated(S)) && old(allocated(c)) && old(allocated(item))
    requires c in S && item in S && old(Linkage(S)) && Attached(S, c, item)
    ensures Linkage(S)
  {
    forall x | x in S
      ensures x.Linked(S)
    {
      PathAfterAttach(S, c, item, x);
      assert old(x.Linked(S));
      assert old(c.Linked(S));
      forall i | 0 <= i < |x.itemlist|
        ensures x.itemlist[i] in S && x.itemlist[i].parent == x
      {
        assert x.itemlist[i] in x.itemlist;
      }
    }
  }

  twostate lemma {:induction false} PathAfterAttach(new S: set<Item>, new c: Item, new item: Item, new x: Item)
    requires old(allocated(S)) && old(allocated(c)) && old(allocated(item)) && old(allocated(x))
    requires c in S && item in S && x in S && old(Linkage(S)) && Attached(S, c, item)
    ensures x.parent == null || x.parent in S
    ensures x.path == [x] + (if x.parent == null then [] else x.parent.path)
  {
    assert old(x.Linked(S));
    if x != item && x.parent != null {
      var p := x.parent;
      assert old(x.path) == [x] + old(p.path) && p == old(x.parent);
      hide Linkage, Item.Linked;
      if item in old(x.path) {
        assert item in old(p.path);
        assert x.path == [x] + old(p.path) + old(c.path) && p.path == old(p.path) + old(c.path);
      }
    }
  }

  /** The weights listed for every container but `c` are those of before. */
  twostate lemma {:induction false} ContentsUntouched(new types: Types, new S: set<Item>, new c: Item)
    requires old(allocated(types)) && old(allocated(S)) && old(allocated(c))
    requires old(ForestBut(types, S, {c})) && c in S
    requires unchanged(S`id, S`count, S`attrs, S`totalWeight)
    requires forall x :: x in S && x != c ==> x.itemlist == old(x.itemlist)
    requires Linkage(S)
    ensures ForestBut(types, S, {c})
  {
    forall x | x in S && x != c
      ensures x.Linked(S) && x.Weighed(types)
    {
      assert x.Linked(S);
      assert old(x.Linked(S));
      assert old(x.Weighed(types));
      assert Weights(types, x.itemlist) == old(Weights(types, x.itemlist));
    }
  }

  /** A changed weight unbalances the item's own parent and no other container. */
  twostate lemma {:induction false} OneWeightChanged(new types: Types, new S: set<Item>, new x: Item, diff: int)
    requires old(allocated(types)) && old(allocated(S)) && old(allocated(x))
    requires x in S && Linkage(S)
    requires forall y :: y in S ==> y.itemlist == old(y.itemlist)
    requires x.parent == old(x.parent)
    requires forall y :: y in S && y != x ==> y.Weight(types) == old(y.Weight(types))
    requires x.Weight(types) == old(x.Weight(types)) + diff
    ensures forall c :: c in S && c != x.parent ==> Weights(types, c.itemlist) == old(Weights(types, c.itemlist))
    ensures x.parent != null ==>
      (x.parent in S
      && Sum(Weights(types, x.parent.itemlist)) == Sum(old(Weights(types, x.parent.itemlist))) + diff)
  {
    forall c | c in S && c != x.parent
      ensures Weights(types, c.itemlist) == old(Weights(types, c.itemlist))
    {
      assert c.Linked(S);
    }
    assert x.Linked(S);
    if x.parent != null {
      assert x.parent.Linked(S);
      var s := x.parent.itemlist;
      var k :| 0 <= k < |s| && s[k] == x;
      assert Weights(types, s) == old(Weights(types, s))[k := x.Weight(types)];
      SumUpdate(old(Weights(types, s)), k, x.Weight(types));
    }
  }

  /** Adding `diff` to one total settles that container and unsettles its parent. */
  twostate lemma {:induction false} TotalBumped(new types: Types, new S: set<Item>, new x: Item, new start: Item,
                                                diff: int)
    requires old(allocated(types)) && old(allocated(S)) && old(allocated(x)) && old(allocated(start))
    requires x in S && start in S && x.isContainer && old(ForestBut(types, S, {x, start}))
    requires unchanged(S`parent, S`itemlist, S`path, S`id, S`count, S`attrs)
    requires forall y :: y in S && y != x ==> y.totalWeight == old(y.totalWeight)
    requires x.totalWeight == old(x.totalWeight) + diff
    requires x != start ==> old(Sum(Weights(types, x.itemlist)) == x.totalWeight + diff)
    ensures x.parent == null ==> ForestBut(types, S, {start})
    ensures x.parent != null ==> x.parent in S && ForestBut(types, S, {x.parent, start})
    ensures x.parent != null && x.parent != start ==>
      Sum(Weights(types, x.parent.itemlist)) == x.parent.totalWeight + diff
  {
    hide Sum, Weights;
    OneWeightChanged(types, S, x, diff);
    assert x.Linked(S);
    forall c | c in S && c != x.parent && c != start
      ensures c.Linked(S) && c.Weighed(types)
    {
      assert c.Linked(S);
      assert c != x ==> old(c.Weighed(types));
    }
    if x.parent != null && x.parent != start && x.parent != x {
      assert old(x.parent.Weighed(types));
    }
  }

  /** The children of an item are not among its ancestors. */
  lemma {:induction false} ChildrenOffPath(S: set<Item>, x: Item)
    requires Linkage(S) && x in S
    ensures x in x.path && forall y :: y in x.itemlist ==> y in S && y !in x.path
  {
    assert x.Linked(S);
    forall y | y in x.itemlist
      ensures y in S && y !in x.path
    {
      assert y.Linked(S);
      if y in x.path {
        PathIsSuffix(S, x, y);
      }
    }
  }

  lemma {:induction false} SuffixOfMore(x: Item, p: seq<Item>, n: nat)
    requires n <= |p|
    ensures ([x] + p)[|[x] + p| - n..] == p[|p| - n..]
  {
  }

  /** The path of an ancestor ends the path of its descendants. */
  lemma {:induction false} PathIsSuffix(S: set<Item>, x: Item, y: Item)
    requires Linkage(S) && x in S && y in x.path
    ensures y in S && |y.path| <= |x.path| && x.path[|x.path| - |y.path|..] == y.path
    decreases |x.path|
  {
    assert x.Linked(S);
    if y != x {
      assert x.parent.Linked(S) && x.path == [x] + x.parent.path && x.parent in S && y in x.parent.path;
      hide Linkage, Item.Linked;
      PathIsSuffix(S, x.parent, y);
      SuffixOfMore(x, x.parent.path, |y.path|);
    } else {
      assert x.path[0..] == x.path;
    }
  }

  lemma {:induction false} SumUpdate(s: seq<int>, k: nat, v: int)
    requires k < |s|
    ensures Sum(s[k := v]) == Sum(s) - s[k] + v
  {
    if k > 0 {
      assert s[k := v][1..] == s[1..][k - 1 := v];
      SumUpdate(s[1..], k - 1, v);
    }
  }

  lemma {:induction false} SumWithout(s: seq<int>, k: nat)
    requires k < |s|
    ensures Sum(s[..k] + s[k + 1..]) == Sum(s) - s[k]
  {
    var t := s[..k] + s[k + 1..];
    assert t[..k] == s[..k] && t[k..] == s[k + 1..];
    assert s == s[..k] + [s[k]] + s[k + 1..];
    SumInsert(t, k, s[k]);
  }

  lemma {:induction false} SumInsert(s: seq<int>, k: nat, v: int)
    requires k <= |s|
    ensures Sum(s[..k] + [v] + s[k..]) == Sum(s) + v
  {
    if k == 0 {
      assert s[..0] + [v] + s[0..] == [v] + s;
    } else {
      assert (s[..k] + [v] + s[k..])[1..] == s[1..][..k - 1] + [v] + s[1..][k - 1..];
      SumInsert(s[1..], k - 1, v);
    }
  }

  lemma {:induction false} ForestFromBut(types: Types, S: set<Item>, c: Item)
    requires ForestBut(types, S, {c}) && c in S && c.Weighed(types)
    ensures Forest(types, S)
  {
    assert c.Linked(S);
  }

  /** A path is the parent chain up to a root, inside the forest. */
  lemma {:induction false} PathIsParentChain(S: set<Item>, x: Item)
    requires Linkage(S) && x in S
    ensures x.path != [] && x.path[0] == x && x.path[|x.path| - 1].parent == null
    ensures forall i :: 0 <= i < |x.path| ==> x.path[i] in S
    ensures forall i :: 0 <= i < |x.path| - 1 ==> x.path[i].parent == x.path[i + 1]
    decreases |x.path|
  {
    assert x.Linked(S);
    var p := x.parent;
    if p != null {
      assert p.Linked(S);
      PathIsParentChain(S, p);
      assert x.path[1..] == p.path;
      assert forall i :: 1 <= i < |x.path| ==> x.path[i] == p.path[i - 1];
    }
  }

  /** There is no parent cycle: no item repeats on a path, so no upward walk is longer than the
    number of items. */
  lemma {:induction false} NoParentCycle(S: set<Item>, x: Item)
    requires Linkage(S) && x in S
    ensures forall i, j :: 0 <= i < j < |x.path| ==> x.path[i] != x.path[j]
    ensures 0 < |x.path| <= |S|
    decreases |x.path|
  {
    PathIsParentChain(S, x);
    assert x.Linked(S);
    var p := x.parent;
    if p != null {
      NoParentCycle(S, p);
      if x in p.path { PathIsSuffix(S, p, x); }
      hide Linkage, Item.Linked;
      assert x.path == [x] + p.path;
      assert forall i :: 1 <= i < |x.path| ==> x.path[i] == p.path[i - 1];
    }
    DistinctFit(x.path, S);
  }

  lemma {:induction false} DistinctFit<T>(s: seq<T>, S: set<T>)
    requires forall i :: 0 <= i < |s| ==> s[i] in S
    requires forall i, j :: 0 <= i < j < |s| ==> s[i] != s[j]
    ensures |s| <= |S|
  {
    if s != [] {
      var last := |s| - 1;
      DistinctFit(s[..last], S - {s[last]});
    }
  }

  /** The weight of an item with everything it holds, counted without the cache. */
  ghost function DeepWeight(types: Types, S: set<Item>, x: Item): int
    requires Linkage(S) && x in S
    reads S
    decreases |S| - |x.path|, |x.itemlist| + 1
  {
    NoParentCycle(S, x);
    assert x.Linked(S);
    if x.isContainer then x.OwnWeight(types) + DeepWeights(types, S, x, |x.itemlist|) else x.OwnWeight(types)
  }

  /** The deep weight of the first `n` children of `c`. */
  ghost function DeepWeights(types: Types, S: set<Item>, c: Item, n: nat): int
    requires Linkage(S) && c in S && n <= |c.itemlist|
    reads S
    decreases |S| - |c.path|, n
  {
    if n == 0 then 0 else
      assert c.Linked(S) && c.itemlist[n - 1].Linked(S);
      NoParentCycle(S, c.itemlist[n - 1]);
      DeepWeights(types, S, c, n - 1) + DeepWeight(types, S, c.itemlist[n - 1])
  }

  /** In a forest every cached weight is the deep weight. */
  lemma {:induction false} CachedWeightIsDeep(types: Types, S: set<Item>, x: Item)
    requires Forest(types, S) && x in S
    ensures x.Weight(types) == DeepWeight(types, S, x)
    decreases |S| - |x.path|, |x.itemlist| + 1
  {
    NoParentCycle(S, x);
    assert x.Linked(S) && x.Weighed(types);
    if x.isContainer {
      CachedWeightsAreDeep(types, S, x, |x.itemlist|);
      assert x.itemlist[..|x.itemlist|] == x.itemlist;
    }
  }

  lemma {:induction false} CachedWeightsAreDeep(types: Types, S: set<Item>, c: Item, n: nat)
    requires Forest(types, S) && c in S && n <= |c.itemlist|
    ensures Sum(Weights(types, c.itemlist[..n])) == DeepWeights(types, S, c, n)
    decreases |S| - |c.path|, n
  {
    if n > 0 {
      var child := c.itemlist[n - 1];
      assert c.Linked(S) && child.Linked(S);
      NoParentCycle(S, child);
      CachedWeightsAreDeep(types, S, c, n - 1);
      CachedWeightIsDeep(types, S, child);
      var w := Weights(types, c.itemlist[..n - 1]);
      assert Weights(types, c.itemlist[..n]) == w[..n - 1] + [child.Weight(types)] + w[n - 1..];
      SumInsert(w, n - 1, child.Weight(types));
    }
  }
}
