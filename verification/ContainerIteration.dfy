/** The iterator over everything in a container (src/container.cpp `ContainerIterator`,
  `getItemHoldingCount`, `isHoldingItem`).

  The iterator keeps a queue of containers and a position in the first one.  Its frontier is the
  sequence of items known but not yet visited; `Advance` removes the first and appends what it holds.
  Over a forest this visits every item below the container exactly once, level by level. */
module ContainerIteration {
  import opened ItemForest

  /** No item of `f` lies in another. */
  ghost predicate Antichain(S: set<Item>, f: seq<Item>)
    reads S`path
  {
    && (forall i :: 0 <= i < |f| ==> f[i] in S)
    && (forall i, j :: 0 <= i < |f| && 0 <= j < |f| && i != j ==> f[i] !in f[j].path)
  }

  /** The items of `f` and everything in them. */
  ghost function Reach(S: set<Item>, f: seq<Item>): set<Item>
    reads S`path
  {
    set y | y in S && exists x :: x in f && x in y.path
  }

  /** Everything in the container `c`, at any depth. */
  ghost function HeldBy(S: set<Item>, c: Item): set<Item>
    reads S`path
  {
    set y | y in S && y != c && c in y.path
  }

  /** An item at or below `c` is `c` or lies at or below a child of `c`. */
  lemma {:induction false} ThroughChild(S: set<Item>, c: Item, y: Item)
    requires Linkage(S) && c in S && y in S
    ensures c in y.path <==> y == c || exists k :: k in c.itemlist && k in y.path
    decreases |y.path|
  {
    assert y.Linked(S) && c.Linked(S);
    if y != c && c in y.path {
      var p := y.parent;
      assert p.Linked(S);
      ThroughChild(S, c, p);
      if p == c {
        assert y in c.itemlist && y in y.path;
      } else {
        var k :| k in c.itemlist && k in p.path;
        assert k in y.path;
      }
    }
    if k :| k in c.itemlist && k in y.path {
      assert k.Linked(S);
      assert c in k.path;
      PathContains(S, y, k, c);
    }
  }

  /** Lying on a path is transitive. */
  lemma {:induction false} PathContains(S: set<Item>, x: Item, y: Item, z: Item)
    requires Linkage(S) && x in S && y in x.path && z in y.path
    ensures z in x.path
    decreases |x.path|
  {
    assert x.Linked(S);
    if y != x {
      assert x.parent.Linked(S);
      PathContains(S, x.parent, y, z);
    }
  }

  /** Visiting the first item of a frontier: it is not reached again, everything else still is. */
  lemma {:induction false} FirstVisited(S: set<Item>, f: seq<Item>)
    requires Linkage(S) && Antichain(S, f) && f != []
    ensures Antichain(S, f[1..] + f[0].itemlist)
    ensures f[0] in S && f[0] in Reach(S, f) && Reach(S, f[1..] + f[0].itemlist) == Reach(S, f) - {f[0]}
  {
    var x, g := f[0], f[1..] + f[0].itemlist;
    assert x.Linked(S);
    assert x in f && x in x.path;
    NextIsAntichain(S, f);
    forall y | y in S
      ensures (exists z :: z in g && z in y.path) <==> y != x && exists z :: z in f && z in y.path
    {
      ThroughChild(S, x, y);
      if z :| z in g && z in y.path {
        if z in f[1..] {
          assert z in f;
          var j :| 0 < j < |f| && f[j] == z;
          assert f[j] !in f[0].path;
        } else {
          assert z in x.itemlist && z.Linked(S);
          if y == x { PathIsSuffix(S, x, z); }
          PathContains(S, y, z, x);
        }
      }
      if y != x {
        if z :| z in f && z in y.path {
          if z == x {
            var k :| k in x.itemlist && k in y.path;
            assert k in g;
          } else {
            assert z in f[1..] && z in g;
          }
        }
      }
    }
  }

  lemma {:induction false} NextIsAntichain(S: set<Item>, f: seq<Item>)
    requires Linkage(S) && Antichain(S, f) && f != []
    ensures Antichain(S, f[1..] + f[0].itemlist)
  {
    var x, n := f[0], |f| - 1;
    var g := f[1..] + x.itemlist;
    assert x.Linked(S);
    forall i, j | 0 <= i < |g| && 0 <= j < |g| && i != j
      ensures g[i] !in g[j].path
    {
      if i < n && j < n {
        assert g[i] == f[i + 1] && g[j] == f[j + 1];
      } else if i < n {
        // an older item in the path of a child of x would be in the path of x
        assert g[i] == f[i + 1] && g[j] == x.itemlist[j - n] && g[j].Linked(S) && g[i].Linked(S);
        assert g[i] !in x.path;
        assert x !in g[i].path && x in g[j].path;
      } else if j < n {
        // a child of x in the path of an older item would bring x along
        assert g[j] == f[j + 1] && g[i] == x.itemlist[i - n] && g[i].Linked(S);
        if g[i] in g[j].path { PathContains(S, g[j], g[i], x); }
      } else {
        assert g[i] == x.itemlist[i - n] && g[j] == x.itemlist[j - n] && g[i].Linked(S) && g[j].Linked(S);
        if g[i] in x.path { PathIsSuffix(S, x, g[i]); }
      }
    }
  }

  /** The order of visits from a frontier. */
  ghost function Visits(S: set<Item>, f: seq<Item>): seq<Item>
    requires Linkage(S) && Antichain(S, f)
    reads S
    decreases Reach(S, f)
  {
    if f == [] then [] else
      FirstVisited(S, f);
      [f[0]] + Visits(S, f[1..] + f[0].itemlist)
  }

  /** Every item below the frontier is visited exactly once, and nothing else is. */
  lemma {:induction false} EachVisitedOnce(S: set<Item>, f: seq<Item>)
    requires Linkage(S) && Antichain(S, f)
    ensures multiset(Visits(S, f)) == multiset(Reach(S, f))
    decreases Reach(S, f)
  {
    if f == [] {
      assert Reach(S, f) == {};
    } else {
      FirstVisited(S, f);
      var g := f[1..] + f[0].itemlist;
      EachVisitedOnce(S, g);
      assert Visits(S, f) == [f[0]] + Visits(S, g);
      hide Reach, Visits, Antichain, Linkage;
      assert multiset(Reach(S, f)) == multiset(Reach(S, g)) + multiset{f[0]};
    }
  }

  /** What the items of a layer hold, in order. */
  ghost function ChildrenOf(layer: seq<Item>): seq<Item>
    reads layer
  {
    if layer == [] then [] else layer[0].itemlist + ChildrenOf(layer[1..])
  }

  lemma {:induction false} LayerFirst(S: set<Item>, layer: seq<Item>, next: seq<Item>)
    requires Linkage(S) && Antichain(S, layer + next)
    ensures Antichain(S, next + ChildrenOf(layer))
    ensures Visits(S, layer + next) == layer + Visits(S, next + ChildrenOf(layer))
    decreases |layer|
  {
    if layer == [] {
      assert layer + next == next && next + ChildrenOf(layer) == next;
      assert layer + Visits(S, next) == Visits(S, next);
    } else {
      var x := layer[0];
      FirstVisited(S, layer + next);
      assert (layer + next)[1..] + x.itemlist == layer[1..] + (next + x.itemlist);
      LayerFirst(S, layer[1..], next + x.itemlist);
      assert next + x.itemlist + ChildrenOf(layer[1..]) == next + ChildrenOf(layer);
    }
  }

  /** The visits come level by level: a layer in order, then the layer of its children. */
  lemma {:induction false} LevelByLevel(S: set<Item>, layer: seq<Item>)
    requires Linkage(S) && Antichain(S, layer)
    ensures Antichain(S, ChildrenOf(layer)) && Visits(S, layer) == layer + Visits(S, ChildrenOf(layer))
  {
    assert layer + [] == layer && [] + ChildrenOf(layer) == ChildrenOf(layer);
    LayerFirst(S, layer, []);
  }

  /** The children of a container are a frontier; what they reach is what the container holds. */
  lemma {:induction false} ChildrenReachAll(S: set<Item>, c: Item)
    requires Linkage(S) && c in S
    ensures Antichain(S, c.itemlist) && Reach(S, c.itemlist) == HeldBy(S, c)
  {
    assert c.Linked(S);
    var f := [c];
    assert f[1..] + f[0].itemlist == c.itemlist;
    FirstVisited(S, f);
  }

  // ---- the iterator -----------------------------------------------------------------------------

  lemma {:induction false} Queued(layer: seq<Item>, x: Item)
    ensures ChildrenOf(layer + [x]) == ChildrenOf(layer) + x.itemlist
  {
    if layer == [] {
      assert [] + [x] == [x] && [x][1..] == [];
    } else {
      assert (layer + [x])[1..] == layer[1..] + [x];
      Queued(layer[1..], x);
    }
  }

  lemma {:induction false} Regrouped(a: seq<Item>, b: seq<Item>, c: seq<Item>, d: seq<Item>)
    requires |a| == 1
    ensures (a + b + c)[1..] + d == b + (c + d)
  {
  }

  /** The items known but not yet visited, from position `cur` of the first container. */
  ghost function FrontierOf(over: seq<Item>, cur: nat): seq<Item>
    requires over != [] ==> cur <= |over[0].itemlist|
    reads over
  {
    if over == [] then [] else over[0].itemlist[cur..] + ChildrenOf(over[1..])
  }

  /** Queueing the current item, if it holds anything, and moving on by one. */
  lemma {:induction false} MovedOn(over: seq<Item>, cur: nat, queue: seq<Item>)
    requires over != [] && cur < |over[0].itemlist|
    requires var i := over[0].itemlist[cur]; queue == if i.itemlist != [] then over + [i] else over
    ensures queue != [] && queue[0] == over[0]
    ensures FrontierOf(queue, cur + 1) == FrontierOf(over, cur)[1..] + over[0].itemlist[cur].itemlist
  {
    var i := over[0].itemlist[cur];
    Queued(over[1..], i);
    assert over[0].itemlist[cur..] == [i] + over[0].itemlist[cur + 1..];
    assert queue[1..] == if i.itemlist != [] then over[1..] + [i] else over[1..];
    assert i.itemlist == [] ==> ChildrenOf(over[1..]) + i.itemlist == ChildrenOf(over[1..]);
    hide ChildrenOf;
    Regrouped([i], over[0].itemlist[cur + 1..], ChildrenOf(over[1..]), i.itemlist);
  }

  /** An exhausted first container leaves the queue. */
  lemma {:induction false} FirstDropped(over: seq<Item>)
    requires over != []
    ensures FrontierOf(over, |over[0].itemlist|) == FrontierOf(over[1..], 0)
  {
    if |over| > 1 {
      assert over[1].itemlist[0..] == over[1].itemlist;
    }
  }

  class ContainerIterator {
    var over: seq<Item>
    var cur: nat

    constructor ()
      ensures over == [] && cur == 0
    {
      over, cur := [], 0;
    }

    /** The queue never holds an empty container, and the position lies in the first one. */
    predicate Valid()
      reads this, over
    {
      && (forall c :: c in over ==> c.itemlist != [])
      && (over != [] ==> cur < |over[0].itemlist|)
    }

    ghost function Frontier(): (f: seq<Item>)
      reads this, over
      requires Valid()
      ensures over == [] ==> f == []
    {
      FrontierOf(over, cur)
    }

    /** `hasNext` */
    predicate HasNext()
      reads this
    {
      over != []
    }

    /** `operator*` */
    function Current(): (x: Item)
      reads this, over
      requires Valid() && HasNext()
      ensures Frontier() != [] && x == Frontier()[0]
    {
      over[0].itemlist[cur]
    }

    /** `advance` */
    method Advance(ghost S: set<Item>)
      requires Valid() && HasNext() && Linkage(S) && Current() in S
      modifies this
      ensures Valid() && Frontier() == old(Frontier())[1..] + old(Current()).itemlist
    {
      MoveOn(S);
      if cur == |over[0].itemlist| {
        FirstDropped(over);
        hide FrontierOf, ChildrenOf;
        DropFirst();
      }
    }

    /** The current item is queued if it holds anything, and the position moves on by one. */
    method MoveOn(ghost S: set<Item>)
      requires Valid() && HasNext() && Linkage(S) && Current() in S
      modifies this
      ensures over != [] && cur <= |over[0].itemlist| && forall c :: c in over ==> c.itemlist != []
      ensures FrontierOf(over, cur) == old(Frontier())[1..] + old(Current()).itemlist
    {
      var i := Current();
      assert i.Linked(S);
      assert i.isContainer || i.itemlist == [];
      hide Linkage, Item.Linked, FrontierOf, ChildrenOf;
      var queue := over;
      if i.isContainer {
        if i.itemlist != [] {
          queue := queue + [i];
        }
      }
      MovedOn(over, cur, queue);
      over := queue;
      cur := cur + 1;
    }

    method DropFirst()
      requires over != [] && forall c :: c in over ==> c.itemlist != []
      modifies this
      ensures over == old(over)[1..] && Valid()
      ensures Frontier() == old(FrontierOf(over[1..], 0))
    {
      over := over[1..];
      if over != [] {
        cur := 0;
      }
    }
  }

  /** `Container::iterator` */
  method Iterator(c: Item) returns (cit: ContainerIterator)
    ensures fresh(cit) && cit.Valid() && cit.Frontier() == c.itemlist
  {
    cit := new ContainerIterator();
    if c.itemlist != [] {
      cit.over := cit.over + [c];
      cit.cur := 0;
    }
  }

  /** One turn of a loop over the iterator. */
  method Visit(it: ContainerIterator, ghost S: set<Item>) returns (x: Item)
    requires it.Valid() && it.HasNext() && Linkage(S) && Antichain(S, it.Frontier())
    modifies it
    ensures it.Valid() && Antichain(S, it.Frontier())
    ensures x in old(Reach(S, it.Frontier())) && Reach(S, it.Frontier()) == old(Reach(S, it.Frontier())) - {x}
    ensures old(Visits(S, it.Frontier())) == [x] + Visits(S, it.Frontier())
  {
    ghost var f := it.Frontier();
    FirstVisited(S, f);
    hide Antichain, Reach, Linkage, ChildrenOf, ContainerIterator.Frontier;
    x := it.Current();
    assert Visits(S, f) == [x] + Visits(S, f[1..] + x.itemlist);
    hide Visits;
    it.Advance(S);
  }

  lemma {:induction false} NothingLeft(S: set<Item>)
    ensures Reach(S, []) == {}
  {
  }

  /** `Container::getItemHoldingCount` counts everything in the container, at any depth. */
  method GetItemHoldingCount(c: Item, ghost S: set<Item>) returns (counter: nat)
    requires Linkage(S) && c in S
    ensures counter == |HeldBy(S, c)|
  {
    hide Antichain, Reach, HeldBy, Linkage, ChildrenOf, Visits;
    ChildrenReachAll(S, c);
    counter := 0;
    var it := Iterator(c);
    while it.HasNext()
      invariant fresh(it) && it.Valid() && Antichain(S, it.Frontier())
      invariant counter + |Reach(S, it.Frontier())| == |HeldBy(S, c)|
      decreases Reach(S, it.Frontier())
    {
      var item := Visit(it, S);
      counter := counter + 1;
    }
    NothingLeft(S);
  }

  /** `Container::isHoldingItem` finds exactly the items in the container, at any depth. */
  method IsHoldingItem(c: Item, item: Item, ghost S: set<Item>) returns (held: bool)
    requires Linkage(S) && c in S
    ensures held <==> item in HeldBy(S, c)
  {
    hide Antichain, Reach, HeldBy, Linkage, ChildrenOf, Visits;
    ChildrenReachAll(S, c);
    var it := Iterator(c);
    while it.HasNext()
      invariant fresh(it) && it.Valid() && Antichain(S, it.Frontier())
      invariant Reach(S, it.Frontier()) <= HeldBy(S, c)
      invariant item in HeldBy(S, c) ==> item in Reach(S, it.Frontier())
      decreases Reach(S, it.Frontier())
    {
      var x := Visit(it, S);
      if x == item { return true; }
    }
    NothingLeft(S);
    held := false;
  }

  lemma {:induction false} Shifted(a: seq<Item>, x: Item, b: seq<Item>)
    ensures a + ([x] + b) == a + [x] + b
  {
  }

  /** A run over a container visits everything in it, at any depth, exactly once. */
  lemma {:induction false} EverythingHeldIsVisited(S: set<Item>, c: Item)
    requires Linkage(S) && c in S
    ensures Antichain(S, c.itemlist) && multiset(Visits(S, c.itemlist)) == multiset(HeldBy(S, c))
  {
    ChildrenReachAll(S, c);
    EachVisitedOnce(S, c.itemlist);
  }

  /** A whole run of the iterator, in the order of `Visits`. */
  method VisitAll(c: Item, ghost S: set<Item>) returns (visited: seq<Item>)
    requires Linkage(S) && c in S
    ensures Antichain(S, c.itemlist) && visited == Visits(S, c.itemlist)
  {
    ChildrenReachAll(S, c);
    assert Visits(S, []) == [];
    hide Antichain, Reach, HeldBy, Linkage, ChildrenOf, Visits;
    visited := [];
    var it := Iterator(c);
    ghost var all, rest := Visits(S, c.itemlist), Visits(S, c.itemlist);
    hide ContainerIterator.Frontier, FrontierOf;
    while it.HasNext()
      invariant fresh(it) && it.Valid() && Antichain(S, it.Frontier())
      invariant rest == Visits(S, it.Frontier()) && visited + rest == all
      decreases Reach(S, it.Frontier())
    {
      var x := Visit(it, S);
      ghost var after := Visits(S, it.Frontier());
      Shifted(visited, x, after);
      visited := visited + [x];
      rest := after;
    }
    assert visited + [] == visited;
  }
}
