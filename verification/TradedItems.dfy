/** Items that move while they are being traded (src/player.cpp `checkTradeState`, `onAddContainerItem`,
  `onRemoveContainerItem`, `onRemoveInventoryItem`, `onRemoveTileItem`; src/container.cpp).

  A player who looks on when an item leaves a place or enters a container may find that this touches the
  item that the player offers, and then the trade is closed.  The players who look on are given with each
  move; whether any traded item can come to lie in another one depends on them. */
module TradedItems {
  import opened Wrappers
  import opened TradeProtocol
  import F = ItemForest
  import C = ContainerIteration

  // ---- players who look on ----------------------------------------------------------------------

  /** One player after the other closes the trade if the item offered is one of `touched`. */
  function Closings(w: World, ps: seq<nat>, touched: set<Item>): World
    decreases |ps|
  {
    if ps == [] then w else
      Closings(if Notices(w, ps[0], touched) then Close(w, ps[0]) else w, ps[1..], touched)
  }

  predicate Notices(w: World, p: nat, touched: set<Item>) {
    p in w.players && w.players[p].item.Some? && w.players[p].item.value in touched
  }

  /** One of the players closes the trade in which `x` is offered, by one side or the other. */
  ghost predicate ClosedFor(w: World, ps: seq<nat>, touched: set<Item>, x: Item)
    requires x in w.tradeItems
  {
    exists p :: p in ps && Notices(w, p, touched)
      && (w.tradeItems[x] == p || w.players[p].partner == Some(w.tradeItems[x]))
  }

  /** Some trades are closed, and nothing else has changed. */
  ghost predicate Fewer(w: World, v: World) {
    && v.players.Keys == w.players.Keys
    && (forall p :: p in w.players ==> v.players[p] == w.players[p] || v.players[p] == IDLE)
    && (forall x :: x in v.tradeItems ==> x in w.tradeItems && v.tradeItems[x] == w.tradeItems[x])
  }

  lemma {:induction false} ClosingOne(w: World, p: nat)
    requires Invariant(w) && p in w.players
    ensures Invariant(Close(w, p)) && Fewer(w, Close(w, p))
    ensures forall x :: x in w.tradeItems ==>
      (x !in Close(w, p).tradeItems <==> w.tradeItems[x] == p || w.players[p].partner == Some(w.tradeItems[x]))
  {
    hide Close, Complete;
    CloseKeeps(w, p);
    assert Consistent(w, p);
    if w.players[p].partner.Some? {
      var q := w.players[p].partner.value;
      assert Consistent(w, q);
      assert Partners(w, p, q);
      hide Invariant, Consistent;
      OutOfTrade(w, p, q);
    } else {
      OutOfNone(w, p);
    }
  }

  lemma {:induction false} OutOfTrade(w: World, p: nat, q: nat)
    requires Partners(w, p, q) && forall x :: x in w.tradeItems ==> Offered(w, x)
    ensures Fewer(w, Complete(w, p, q))
    ensures forall x :: x in w.tradeItems ==>
      (x !in Complete(w, p, q).tradeItems <==> w.tradeItems[x] == p || w.tradeItems[x] == q)
  {
    forall x | x in w.tradeItems
      ensures x !in Complete(w, p, q).tradeItems <==> w.tradeItems[x] == p || w.tradeItems[x] == q
    {
      assert Offered(w, x);
    }
  }

  lemma {:induction false} OutOfNone(w: World, p: nat)
    requires Invariant(w) && p in w.players && w.players[p].partner.None?
    ensures Fewer(w, Close(w, p)) && Close(w, p).tradeItems == w.tradeItems
    ensures forall x :: x in w.tradeItems ==> w.tradeItems[x] != p
  {
    assert Consistent(w, p);
    forall x | x in w.tradeItems
      ensures w.tradeItems[x] != p
    {
      assert Offered(w, x);
    }
  }

  /** Who would close the trade of an item that is still offered is the same as before. */
  lemma {:induction false} ClosedSame(w: World, v: World, ps: seq<nat>, touched: set<Item>, x: Item)
    requires Invariant(w) && Invariant(v) && Fewer(w, v) && x in v.tradeItems
    ensures ClosedFor(v, ps, touched, x) <==> ClosedFor(w, ps, touched, x)
  {
    var o := v.tradeItems[x];
    assert Offered(v, x) && Consistent(v, o) && Consistent(w, o);
    forall p | p in w.players && (p == o || w.players[p].partner == Some(o) || v.players[p].partner == Some(o))
      ensures v.players[p] == w.players[p]
    {
      assert Consistent(w, p) && Consistent(v, p);
      var q := v.players[o].partner.value;
      assert Consistent(v, q);
    }
    hide Invariant, Consistent, Offered;
  }

  lemma {:induction false} FewerStill(w: World, v: World, u: World)
    requires Fewer(w, v) && Fewer(v, u)
    ensures Fewer(w, u)
  {
  }

  /** What is still offered when all have looked on: exactly what none of them closes. */
  lemma {:induction false} ClosingsExactly(w: World, ps: seq<nat>, touched: set<Item>)
    requires Invariant(w)
    ensures var v := Closings(w, ps, touched);
      && Invariant(v) && Fewer(w, v)
      && forall x :: x in w.tradeItems ==> (x in v.tradeItems <==> !ClosedFor(w, ps, touched, x))
    decreases |ps|
  {
    if ps == [] { return; }
    hide Invariant, Close, ClosedFor, Notices, Fewer;
    var v1 := if Notices(w, ps[0], touched) then Close(w, ps[0]) else w;
    FirstCloses(w, ps[0], touched);
    ClosingsExactly(v1, ps[1..], touched);
    var v := Closings(v1, ps[1..], touched);
    FewerStill(w, v1, v);
    forall x | x in w.tradeItems
      ensures x in v.tradeItems <==> !ClosedFor(w, ps, touched, x)
    {
      FirstOrLater(w, ps, touched, x);
      if x in v1.tradeItems {
        ClosedSame(w, v1, ps[1..], touched, x);
      } else {
        StaysClosed(v1, v, x);
      }
    }
  }

  lemma {:induction false} StaysClosed(w: World, v: World, x: Item)
    requires Fewer(w, v) && x !in w.tradeItems
    ensures x !in v.tradeItems
  {
  }

  lemma {:induction false} FirstCloses(w: World, p: nat, touched: set<Item>)
    requires Invariant(w)
    ensures Notices(w, p, touched) ==> p in w.players
    ensures var v := if Notices(w, p, touched) then Close(w, p) else w;
      && Invariant(v) && Fewer(w, v)
      && forall x :: x in w.tradeItems ==>
           (x !in v.tradeItems <==>
            Notices(w, p, touched) && (w.tradeItems[x] == p || w.players[p].partner == Some(w.tradeItems[x])))
  {
    hide Invariant, Close;
    if Notices(w, p, touched) { ClosingOne(w, p); }
  }

  lemma {:induction false} FirstOrLater(w: World, ps: seq<nat>, touched: set<Item>, x: Item)
    requires ps != [] && x in w.tradeItems
    ensures ClosedFor(w, ps, touched, x) <==>
      || (Notices(w, ps[0], touched)
          && (w.tradeItems[x] == ps[0] || w.players[ps[0]].partner == Some(w.tradeItems[x])))
      || ClosedFor(w, ps[1..], touched, x)
  {
    assert ps == [ps[0]] + ps[1..];
  }

  // ---- one move ---------------------------------------------------------------------------------

  /** An item goes from one place to another; a place that is no container is a floor or a slot.  The players
    `leaving` look on at the first place, the players `arriving` at the second. */
  datatype Move = Move(item: Item, from: Option<Item>, to: Option<Item>, leaving: seq<nat>, arriving: seq<nat>)

  /** The items whose trade a player closes when `item` leaves: itself and what holds it; in a container, all
    that lies deeper in it; elsewhere, all that lies in the item. */
  ghost function TouchedByLeaving(paths: Paths, m: Move): set<Item>
    requires m.item in paths
  {
    set t | t in paths && (t in paths[m.item] || match m.from
      case Some(c) => Holds(paths, c, t) && !(|paths[t]| > 1 && paths[t][1] == c)
      case None => Holds(paths, m.item, t))
  }

  /** The items whose trade a player closes when `item` arrives: itself and what holds it then. */
  ghost function TouchedByArriving(paths: Paths, m: Move): set<Item>
    requires m.to.Some? ==> m.to.value in paths
  {
    if m.to.Some? then {m.item} + (set t | t in paths[m.to.value]) else {}
  }

  /** What a move does to the trades. */
  ghost function Seen(w: World, paths: Paths, m: Move): World
    requires m.item in paths && (m.to.Some? ==> m.to.value in paths)
  {
    Closings(Closings(w, m.leaving, TouchedByLeaving(paths, m)), m.arriving, TouchedByArriving(paths, m))
  }

  /** A move changes where the item lies, and all it holds; what these lie in afterwards they lay in before, or else
    the new container does. */
  ghost predicate Shifted(before: Paths, after: Paths, m: Move) {
    && m.item in before && before.Keys == after.Keys
    && (m.to.Some? ==> m.to.value in before && m.item !in before[m.to.value])
    && (forall x :: x in before && m.item !in before[x] ==> after[x] == before[x])
    && (forall x, j :: x in before && m.item in before[x] && j in after[x] ==>
          j in before[x] || (m.to.Some? && j in before[m.to.value]))
    && (m.to.Some? ==> forall x, j :: x in before && m.item in before[x] && j in before[m.to.value] ==> j in after[x])
  }

  /** One of those who look on closes the trade of `x`. */
  ghost predicate Noticed(w: World, paths: Paths, m: Move, x: Item)
    requires x in w.tradeItems && m.item in paths && (m.to.Some? ==> m.to.value in paths)
  {
    || ClosedFor(w, m.leaving, TouchedByLeaving(paths, m), x)
    || ClosedFor(w, m.arriving, TouchedByArriving(paths, m), x)
  }

  /** Of a traded item that the new container is or lies in, and a traded item that is moved or lies in what is moved,
    one trade is closed by somebody who looks on. */
  ghost predicate StaysApart(w: World, paths: Paths, m: Move)
    requires m.item in paths && (m.to.Some? ==> m.to.value in paths)
  {
    m.to.Some? ==>
      forall a, b :: a in w.tradeItems && b in w.tradeItems && b in paths && a != b
                     && a in paths[m.to.value] && m.item in paths[b] ==>
        Noticed(w, paths, m, a) || Noticed(w, paths, m, b)
  }

  lemma {:induction false} SeenExactly(w: World, paths: Paths, m: Move)
    requires Invariant(w) && m.item in paths && (m.to.Some? ==> m.to.value in paths)
    ensures Invariant(Seen(w, paths, m)) && Fewer(w, Seen(w, paths, m))
    ensures forall x :: x in w.tradeItems ==> (x in Seen(w, paths, m).tradeItems <==> !Noticed(w, paths, m, x))
  {
    hide Invariant, Closings, ClosedFor, TouchedByLeaving, TouchedByArriving;
    var v := Closings(w, m.leaving, TouchedByLeaving(paths, m));
    ClosingsExactly(w, m.leaving, TouchedByLeaving(paths, m));
    ClosingsExactly(v, m.arriving, TouchedByArriving(paths, m));
    forall x | x in v.tradeItems
      ensures ClosedFor(v, m.arriving, TouchedByArriving(paths, m), x) <==>
        ClosedFor(w, m.arriving, TouchedByArriving(paths, m), x)
    {
      ClosedSame(w, v, m.arriving, TouchedByArriving(paths, m), x);
    }
  }

  /** Whether a move leaves every traded item outside every other one, stated before the move: it does exactly when those
    who look on close one trade of every pair that would meet. */
  lemma {:induction false} MoveExactly(w: World, before: Paths, after: Paths, m: Move)
    requires Invariant(w) && Apart(w, before) && Shifted(before, after, m) && w.tradeItems.Keys <= before.Keys
    ensures Invariant(Seen(w, before, m)) && Fewer(w, Seen(w, before, m))
    ensures Apart(Seen(w, before, m), after) <==> StaysApart(w, before, m)
  {
    SeenExactly(w, before, m);
    hide Invariant, Seen, Noticed;
    var v := Seen(w, before, m);
    if StaysApart(w, before, m) {
      forall a, b | a in v.tradeItems && b in v.tradeItems
        ensures !Holds(after, a, b)
      {
        NotMet(w, v, before, after, m, a, b);
      }
    }
    if Apart(v, after) && m.to.Some? {
      forall a, b | a in w.tradeItems && b in w.tradeItems && b in before && a != b
                    && a in before[m.to.value] && m.item in before[b]
        ensures Noticed(w, before, m, a) || Noticed(w, before, m, b)
      {
        assert a in after[b];
        assert Holds(after, a, b);
      }
    }
  }

  lemma {:induction false} NotMet(w: World, v: World, before: Paths, after: Paths, m: Move, a: Item, b: Item)
    requires Apart(w, before) && Shifted(before, after, m) && w.tradeItems.Keys <= before.Keys && Fewer(w, v)
    requires forall x :: x in w.tradeItems ==> (x in v.tradeItems <==> !Noticed(w, before, m, x))
    requires StaysApart(w, before, m) && a in v.tradeItems && b in v.tradeItems
    ensures !Holds(after, a, b)
  {
    hide Noticed;
    assert a in w.tradeItems && b in w.tradeItems && b in before;
    assert !Holds(before, a, b);
    assert a in after[b] ==> a in before[b] || (m.item in before[b] && m.to.Some? && a in before[m.to.value]);
  }

  /** It is enough that, for every traded container that the new place is or lies in, the player who offers it looks on
    when the item arrives. */
  lemma {:induction false} ArrivalSeen(w: World, paths: Paths, m: Move)
    requires Invariant(w) && m.item in paths && (m.to.Some? ==> m.to.value in paths)
    requires m.to.Some? ==> forall a :: a in w.tradeItems && a in paths[m.to.value] ==> w.tradeItems[a] in m.arriving
    ensures StaysApart(w, paths, m)
  {
    forall a | a in w.tradeItems && m.to.Some? && a in paths[m.to.value]
      ensures ClosedFor(w, m.arriving, TouchedByArriving(paths, m), a)
    {
      assert Offered(w, a);
      assert Notices(w, w.tradeItems[a], TouchedByArriving(paths, m));
    }
    hide Invariant, ClosedFor, TouchedByArriving;
  }

  /** Or that, for every traded item that is moved or lies in what is moved, the player who offers it looks on when the
    item leaves: then none of these is traded any more. */
  lemma {:induction false} DepartureSeen(w: World, paths: Paths, m: Move)
    requires Invariant(w) && PathsOk(paths) && m.item in paths && m.from == Container(paths, m.item)
    requires (m.to.Some? ==> m.to.value in paths) && w.tradeItems.Keys <= paths.Keys
    requires forall b :: b in w.tradeItems && m.item in paths[b] ==> w.tradeItems[b] in m.leaving
    ensures forall b :: b in w.tradeItems && m.item in paths[b] ==> Noticed(w, paths, m, b)
    ensures StaysApart(w, paths, m)
  {
    forall b | b in w.tradeItems && m.item in paths[b]
      ensures Noticed(w, paths, m, b)
    {
      assert Offered(w, b);
      LeavesWith(paths, m, b);
      assert Notices(w, w.tradeItems[b], TouchedByLeaving(paths, m));
    }
    hide Invariant, Noticed;
  }

  lemma {:induction false} LeavesWith(paths: Paths, m: Move, b: Item)
    requires PathsOk(paths) && m.item in paths && b in paths && m.item in paths[b]
    requires m.from == Container(paths, m.item)
    ensures b in TouchedByLeaving(paths, m)
  {
    var x := m.item;
    PathEnds(paths, b, x);
    assert PathOk(paths, b) && PathOk(paths, x);
    if b != x && m.from.Some? {
      var c, n := m.from.value, |paths[b]| - |paths[x]|;
      assert paths[b][n..][1] == paths[b][n + 1] == c;
      assert PathOk(paths, c);
      assert paths[b][0..] == paths[b];
    }
  }

  // ---- where items lie --------------------------------------------------------------------------

  /** The path of an item begins with it and goes on as that of its container. */
  ghost predicate PathOk(paths: Paths, x: Item)
    requires x in paths
  {
    && paths[x] != [] && paths[x][0] == x
    && (|paths[x]| > 1 ==> paths[x][1] in paths && paths[x][1..] == paths[paths[x][1]])
  }

  ghost predicate PathsOk(paths: Paths) {
    forall x :: x in paths ==> PathOk(paths, x)
  }

  /** The container of an item. */
  ghost function Container(paths: Paths, x: Item): Option<Item>
    requires x in paths
  {
    if |paths[x]| > 1 then Some(paths[x][1]) else None
  }

  /** A path goes on from every item on it as the path of that item. */
  lemma {:induction false} PathEnds(paths: Paths, x: Item, c: Item)
    requires PathsOk(paths) && x in paths && c in paths[x]
    ensures c in paths && 1 <= |paths[c]| <= |paths[x]| && paths[x][|paths[x]| - |paths[c]|..] == paths[c]
    decreases |paths[x]|
  {
    assert PathOk(paths, x);
    if c == x {
      assert paths[x][0..] == paths[x];
    } else {
      var y := paths[x][1];
      assert paths[x] == [x] + paths[y];
      PathEnds(paths, y, c);
      hide PathsOk;
      F.SuffixOfMore(x, paths[y], |paths[c]|);
    }
  }

  lemma {:induction false} PathsAreOk(S: set<Item>)
    requires F.Linkage(S)
    ensures PathsOk(PathsOf(S))
  {
    forall x | x in S
      ensures PathOk(PathsOf(S), x)
    {
      assert x.Linked(S);
      if x.parent != null { assert x.parent.Linked(S); }
    }
  }

  /** The part of a path through `item` that ends at it. */
  ghost function UpTo(paths: Paths, item: Item, x: Item): seq<Item>
    requires item in paths && x in paths
  {
    if 1 <= |paths[item]| <= |paths[x]| then paths[x][..|paths[x]| - |paths[item]| + 1] else []
  }

  /** Where items lie once `item` was put into `to`, or to a place that is no container. */
  ghost function Rehung(paths: Paths, item: Item, to: Option<Item>): (r: Paths)
    requires item in paths && (to.Some? ==> to.value in paths)
    ensures r.Keys == paths.Keys
  {
    map x | x in paths ::
      if item in paths[x] then UpTo(paths, item, x) + (if to.Some? then paths[to.value] else []) else paths[x]
  }

  lemma {:induction false} OnPath(paths: Paths, x: Item)
    requires PathsOk(paths) && x in paths
    ensures PathOk(paths, x) && (|paths[x]| > 1 ==> paths[x] == [x] + paths[paths[x][1]])
  {
    assert PathOk(paths, x);
  }

  lemma {:induction false} UpToStep(paths: Paths, item: Item, x: Item)
    requires PathsOk(paths) && item in paths && x in paths && item in paths[x]
    ensures UpTo(paths, item, x) != [] && UpTo(paths, item, x)[0] == x
    ensures x == item ==> UpTo(paths, item, x) == [item]
    ensures x != item ==>
      |paths[x]| > 1 && paths[x][1] in paths && item in paths[paths[x][1]]
      && UpTo(paths, item, x) == [x] + UpTo(paths, item, paths[x][1])
    ensures forall j :: j in UpTo(paths, item, x) ==> j in paths[x]
  {
    hide PathsOk;
    OnPath(paths, x);
    PathEnds(paths, x, item);
    if x != item {
      var y := paths[x][1];
      PathEnds(paths, y, item);
      CutTail(x, paths[y], |paths[item]|);
    }
  }

  lemma {:induction false} UpToBelow(paths: Paths, item: Item, x: Item)
    requires PathsOk(paths) && item in paths && x in paths && item in paths[x]
    ensures forall j :: j in UpTo(paths, item, x) ==> j in paths[x] && j in paths && item in paths[j]
    decreases |paths[x]|
  {
    UpToStep(paths, item, x);
    OnPath(paths, x);
    if x != item { UpToBelow(paths, item, paths[x][1]); }
    hide PathsOk, UpTo;
  }

  lemma {:induction false} CutTail(x: Item, p: seq<Item>, n: nat)
    requires 1 <= n <= |p|
    ensures ([x] + p)[..|p| + 1 - n + 1] == [x] + p[..|p| - n + 1]
  {
  }

  /** Then paths are in order, and the move is one that only changes where the item and all it holds lie. */
  lemma {:induction false} RehungOk(paths: Paths, m: Move)
    requires PathsOk(paths) && m.item in paths
    requires m.to.Some? ==> m.to.value in paths && m.item !in paths[m.to.value]
    ensures PathsOk(Rehung(paths, m.item, m.to)) && Shifted(paths, Rehung(paths, m.item, m.to), m)
  {
    var after, item := Rehung(paths, m.item, m.to), m.item;
    forall x | x in paths
      ensures PathOk(after, x)
    {
      RehungAt(paths, m, x);
    }
    forall x | x in paths && item in paths[x]
      ensures forall j :: j in UpTo(paths, item, x) ==> j in paths[x]
    {
      UpToStep(paths, item, x);
    }
    hide PathsOk, PathOk, UpTo;
  }

  lemma {:induction false} RehungAt(paths: Paths, m: Move, x: Item)
    requires PathsOk(paths) && m.item in paths && x in paths
    requires m.to.Some? ==> m.to.value in paths && m.item !in paths[m.to.value]
    ensures PathOk(Rehung(paths, m.item, m.to), x)
  {
    hide PathsOk, UpTo, Rehung, PathOk;
    RehungStep(paths, m, x);
    OnPath(paths, x);
    if |paths[x]| > 1 && m.item !in paths[x] { Above(paths, m, x); }
    if m.to.Some? {
      RehungStep(paths, m, m.to.value);
      OnPath(paths, m.to.value);
    }
    if m.item in paths[x] && x != m.item {
      RehungStep(paths, m, paths[x][1]);
    }
    GoesOn(paths, Rehung(paths, m.item, m.to), m, x);
  }

  /** How a new path goes on. */
  lemma {:induction false} RehungStep(paths: Paths, m: Move, x: Item)
    requires PathsOk(paths) && m.item in paths && x in paths && (m.to.Some? ==> m.to.value in paths)
    ensures var after := Rehung(paths, m.item, m.to);
      && after.Keys == paths.Keys
      && (m.item !in paths[x] ==> after[x] == paths[x])
      && (x == m.item ==> after[x] == [x] + if m.to.Some? then paths[m.to.value] else [])
      && (m.item in paths[x] ==> after[x] != [] && after[x][0] == x)
      && (m.item in paths[x] && x != m.item ==>
          |paths[x]| > 1 && paths[x][1] in paths && m.item in paths[paths[x][1]] && after[x] == [x] + after[paths[x][1]])
  {
    hide PathsOk, UpTo, Rehung;
    OnPath(paths, x);
    RehungIs(paths, m, x);
    if m.item in paths[x] {
      UpToStep(paths, m.item, x);
      if x != m.item {
        var y := paths[x][1];
        RehungIs(paths, m, y);
        Prefixed(x, UpTo(paths, m.item, y), if m.to.Some? then paths[m.to.value] else []);
      }
    }
  }

  lemma {:induction false} RehungIs(paths: Paths, m: Move, x: Item)
    requires m.item in paths && x in paths && (m.to.Some? ==> m.to.value in paths)
    ensures Rehung(paths, m.item, m.to).Keys == paths.Keys
    ensures Rehung(paths, m.item, m.to)[x] ==
      if m.item in paths[x] then UpTo(paths, m.item, x) + (if m.to.Some? then paths[m.to.value] else []) else paths[x]
  {
  }

  lemma {:induction false} Prefixed(x: Item, a: seq<Item>, b: seq<Item>)
    ensures [x] + a + b == [x] + (a + b)
  {
  }

  lemma {:induction false} Above(paths: Paths, m: Move, x: Item)
    requires PathsOk(paths) && x in paths && |paths[x]| > 1 && m.item !in paths[x] && m.item in paths
    requires m.to.Some? ==> m.to.value in paths
    ensures paths[x][1] in paths && Rehung(paths, m.item, m.to)[paths[x][1]] == paths[paths[x][1]]
  {
    OnPath(paths, x);
  }

  lemma {:induction false} GoesOn(paths: Paths, after: Paths, m: Move, x: Item)
    requires x in paths && after.Keys == paths.Keys && PathOk(paths, x)
    requires m.to.Some? ==> m.to.value in paths && PathOk(paths, m.to.value) && after[m.to.value] == paths[m.to.value]
    requires m.item !in paths[x] ==>
      after[x] == paths[x] && (|paths[x]| > 1 ==> after[paths[x][1]] == paths[paths[x][1]])
    requires x == m.item ==> after[x] == [x] + if m.to.Some? then paths[m.to.value] else []
    requires m.item in paths[x] && x != m.item ==>
      |paths[x]| > 1 && after[x] == [x] + after[paths[x][1]] && after[paths[x][1]] != []
      && after[paths[x][1]][0] == paths[x][1]
    ensures PathOk(after, x)
  {
  }

  // ---- the objects ------------------------------------------------------------------------------

  function Ids(ps: seq<Player>): seq<nat> {
    seq(|ps|, i requires 0 <= i < |ps| => ps[i].id)
  }

  /** What a player does who notices that one of these items is touched. */
  ghost function Noticing(w: World, p: nat, touched: set<Item>): World {
    if Notices(w, p, touched) then Close(w, p) else w
  }

  /** `Player::checkTradeState`: the walk from an item up to the one that the player offers. */
  method CheckTradeState(game: Game, player: Player, item: Item, ghost S: set<Item>)
    requires game.WellFormed() && game.Known(player) && F.Linkage(S) && item in S
    modifies game, game.players.Values
    ensures game.WellFormed()
    ensures game.View() == Noticing(old(game.View()), player.id, set t | t in item.path)
  {
    game.Shown(player);
    ClosingInTransfer(game.View(), player.id);
    if player.tradeItem == None || player.tradeState == TRANSFER { return; }
    var tradeItem := player.tradeItem.value;
    assert item.Linked(S);
    if tradeItem == item {
      game.CloseTrade(player);
      return;
    }
    var container := item.parent;
    while container != null
      invariant container != null ==> container in S
      invariant tradeItem in item.path <==> container != null && tradeItem in container.path
      decreases if container == null then 0 else |container.path|
    {
      assert container.Linked(S);
      assert container.parent != null ==> container.parent.Linked(S);
      if container == tradeItem {
        game.CloseTrade(player);
        return;
      }
      container := container.parent;
    }
  }

  lemma {:induction false} ClosingInTransfer(w: World, p: nat)
    requires p in w.players
    ensures w.players[p].state == TRANSFER ==> Close(w, p) == w
  {
  }

  /** `onRemoveContainerItem`, or without a container `onRemoveInventoryItem` and `onRemoveTileItem`. */
  method OnRemoveItem(game: Game, player: Player, from: F.Item?, item: Item, ghost m: Move, ghost S: set<Item>)
    requires game.WellFormed() && game.Known(player) && F.Linkage(S) && item in S && Invariant(game.View())
    requires game.tradeItems.Keys <= S && item.parent == from
    requires m.item == item && m.from == if from == null then None else Some(from)
    modifies game, game.players.Values
    ensures game.WellFormed() && Invariant(game.View()) && game.tradeItems.Keys <= S
    ensures game.View() == Noticing(old(game.View()), player.id, TouchedByLeaving(PathsOf(S), m))
  {
    hide Invariant, TouchedByLeaving, PathsOf, F.Linkage, Close, Noticing, Notices, Game.WellFormed;
    ghost var w, touched := game.View(), TouchedByLeaving(PathsOf(S), m);
    game.Shown(player);
    OwnItem(game, player, S);
    NoticingKeeps(w, player.id, touched);
    ClosingInTransfer(w, player.id);
    if player.tradeItem == None || player.tradeState == TRANSFER {
      NoticingNothing(w, player.id, touched);
      return;
    }
    var tradeItem := player.tradeItem.value;
    NoticingItem(w, player.id, set t | t in item.path);
    NoticingItem(w, player.id, touched);
    PathTouched(S, m, tradeItem);
    CheckTradeState(game, player, item, S);
    game.Shown(player);
    ClosedHasNone(w, player.id);
    if player.tradeItem == None { return; }
    var held := HoldsOffered(from, item, tradeItem, m, S);
    if held {
      game.CloseTrade(player);
    }
  }

  lemma {:induction false} NoticingNothing(w: World, p: nat, touched: set<Item>)
    requires p in w.players && (w.players[p].item.None? || Close(w, p) == w)
    ensures Noticing(w, p, touched) == w
  {
    hide Close;
  }

  lemma {:induction false} NoticingItem(w: World, p: nat, touched: set<Item>)
    requires p in w.players && w.players[p].item.Some?
    ensures Noticing(w, p, touched) == if w.players[p].item.value in touched then Close(w, p) else w
  {
    hide Close;
  }

  lemma {:induction false} PathTouched(S: set<Item>, m: Move, t: Item)
    requires m.item in S && t in S
    ensures t in m.item.path ==> t in TouchedByLeaving(PathsOf(S), m)
  {
  }

  /** The second check of a removal: does the item offered lie deeper in the container, or in the item removed? */
  method HoldsOffered(from: F.Item?, item: Item, tradeItem: Item, ghost m: Move, ghost S: set<Item>) returns (held: bool)
    requires F.Linkage(S) && item in S && tradeItem in S && tradeItem !in item.path && item.parent == from
    requires m.item == item && m.from == if from == null then None else Some(from)
    ensures held <==> tradeItem in TouchedByLeaving(PathsOf(S), m)
  {
    assert item.Linked(S) && tradeItem.Linked(S);
    assert from != null ==> from.Linked(S);
    assert tradeItem.parent != null ==> tradeItem.parent.Linked(S);
    held := false;
    if from != null {
      if tradeItem.parent != from {
        held := C.IsHoldingItem(from, tradeItem, S);
      }
    } else if item.isContainer {
      held := C.IsHoldingItem(item, tradeItem, S);
    } else if item in tradeItem.path {
      OnlyContainersHold(S, item, tradeItem);
    }
  }

  lemma {:induction false} OwnItem(game: Game, player: Player, S: set<Item>)
    requires game.WellFormed() && game.Known(player) && Invariant(game.View()) && game.tradeItems.Keys <= S
    ensures player.tradeItem.Some? ==> player.tradeItem.value in S
  {
    game.Shown(player);
    assert Consistent(game.View(), player.id);
  }

  lemma {:induction false} NoticingKeeps(w: World, p: nat, touched: set<Item>)
    requires Invariant(w) && p in w.players
    ensures Invariant(Noticing(w, p, touched)) && Noticing(w, p, touched).tradeItems.Keys <= w.tradeItems.Keys
  {
    hide Invariant, Close;
    if Notices(w, p, touched) { ClosingOne(w, p); }
  }

  lemma {:induction false} ClosedHasNone(w: World, p: nat)
    requires Invariant(w) && p in w.players
    ensures p in Close(w, p).players && (w.players[p].item.Some? ==> Close(w, p).players[p].item == None)
  {
    assert Consistent(w, p);
  }

  /** All who look on when the item leaves, one after the other. */
  method AllSeeLeaving(game: Game, ps: seq<Player>, from: F.Item?, item: Item, ghost m: Move, ghost S: set<Item>)
    requires game.WellFormed() && (forall p :: p in ps ==> game.Known(p)) && F.Linkage(S) && item in S
    requires Invariant(game.View()) && game.tradeItems.Keys <= S && item.parent == from
    requires m.item == item && m.from == if from == null then None else Some(from)
    modifies game, game.players.Values
    ensures game.WellFormed() && Invariant(game.View()) && game.tradeItems.Keys <= S
    ensures game.View() == Closings(old(game.View()), Ids(ps), TouchedByLeaving(PathsOf(S), m))
  {
    hide Invariant, TouchedByLeaving, PathsOf, F.Linkage, Closings, Noticing, Game.View, Game.WellFormed;
    ghost var w, touched := game.View(), TouchedByLeaving(PathsOf(S), m);
    NoneLeft(w, ps, touched);
    for i := 0 to |ps|
      invariant game.WellFormed() && Invariant(game.View()) && game.tradeItems.Keys <= S
      invariant Closings(game.View(), Ids(ps)[i..], touched) == Closings(w, Ids(ps), touched)
    {
      NextOne(game.View(), ps, i, touched);
      OnRemoveItem(game, ps[i], from, item, m, S);
    }
    NoneLeft(game.View(), ps, touched);
  }

  lemma {:induction false} NextOne(w: World, ps: seq<Player>, i: nat, touched: set<Item>)
    requires i < |ps|
    ensures Closings(w, Ids(ps)[i..], touched) == Closings(Noticing(w, ps[i].id, touched), Ids(ps)[i + 1..], touched)
  {
    assert Ids(ps)[i..][1..] == Ids(ps)[i + 1..];
  }

  lemma {:induction false} NoneLeft(w: World, ps: seq<Player>, touched: set<Item>)
    ensures Ids(ps)[0..] == Ids(ps) && Closings(w, Ids(ps)[|ps|..], touched) == w
  {
  }

  /** All who look on when the item has arrived: `onAddContainerItem`. */
  method AllSeeArriving(game: Game, ps: seq<Player>, item: Item, ghost S: set<Item>)
    requires game.WellFormed() && (forall p :: p in ps ==> game.Known(p)) && F.Linkage(S) && item in S
    modifies game, game.players.Values
    ensures game.WellFormed()
    ensures game.View() == Closings(old(game.View()), Ids(ps), set t | t in item.path)
  {
    hide F.Linkage, Closings, Noticing, Game.View, Game.WellFormed;
    ghost var w, touched := game.View(), set t | t in item.path;
    NoneLeft(w, ps, touched);
    for i := 0 to |ps|
      invariant game.WellFormed() && Closings(game.View(), Ids(ps)[i..], touched) == Closings(w, Ids(ps), touched)
    {
      NextOne(game.View(), ps, i, touched);
      CheckTradeState(game, ps[i], item, S);
    }
    NoneLeft(game.View(), ps, touched);
  }

  /** An item goes from where it is to a container, or to a place that is none; whoever looks on may close a trade.
    Afterwards no traded item lies in another one if and only if the move `StaysApart`. */
  method MoveItem(game: Game, types: F.Types, item: Item, to: F.Item?, leaving: seq<Player>, arriving: seq<Player>,
                  ghost S: set<Item>)
    returns (ghost m: Move)
    requires game.WellFormed() && (forall p :: p in leaving || p in arriving ==> game.Known(p))
    requires Invariant(game.View()) && game.tradeItems.Keys <= S && F.Forest(types, S) && item in S
    requires to != null ==> to in S && to.isContainer && item !in to.path
    modifies game, game.players.Values, S
    ensures game.WellFormed() && Invariant(game.View()) && F.Forest(types, S) && item.parent == to
    ensures m == Move(item, old(AsOption(item.parent)), AsOption(to), Ids(leaving), Ids(arriving))
    ensures game.View() == Seen(old(game.View()), old(PathsOf(S)), m)
    ensures PathsOf(S) == Rehung(old(PathsOf(S)), m.item, m.to)
    ensures old(Apart(game.View(), PathsOf(S))) ==>
      (Apart(game.View(), PathsOf(S)) <==> old(StaysApart(game.View(), PathsOf(S), m)))
  {
    hide *;
    m := Move(item, AsOption(item.parent), AsOption(to), Ids(leaving), Ids(arriving));
    ghost var w, paths := game.View(), PathsOf(S);
    ListedHere(game, S);
    PlacesHere(types, S, item, to);
    CarryItem(game, types, item, to, leaving, arriving, m, S);
    SeenExactly(w, paths, m);
    RehungOk(paths, m);
    if Apart(w, paths) { MoveExactly(w, paths, PathsOf(S), m); }
  }

  /** The same: what the move does to the trades and to the forest. */
  method CarryItem(game: Game, types: F.Types, item: Item, to: F.Item?, leaving: seq<Player>, arriving: seq<Player>,
                   ghost m: Move, ghost S: set<Item>)
    requires game.WellFormed() && (forall p :: p in leaving || p in arriving ==> game.Known(p))
    requires Invariant(game.View()) && game.tradeItems.Keys <= S && F.Forest(types, S) && item in S
    requires to != null ==> to in S && to.isContainer && item !in to.path
    requires m == Move(item, AsOption(item.parent), AsOption(to), Ids(leaving), Ids(arriving))
    modifies game, game.players.Values, S
    ensures game.WellFormed() && F.Forest(types, S) && item.parent == to
    ensures game.View() == Seen(old(game.View()), old(PathsOf(S)), m)
    ensures PathsOf(S) == Rehung(old(PathsOf(S)), m.item, m.to)
  {
    hide Invariant, TouchedByLeaving, TouchedByArriving, PathsOf, PathsOk, F.Linkage, F.Forest, Closings, Game.View,
         Game.WellFormed, Rehung;
    ghost var paths := PathsOf(S);
    LinkedForest(types, S);
    PlacesHere(types, S, item, to);
    AllSeeLeaving(game, leaving, item.parent, item, m, S);
    Rehang(types, item, to, m, S);
    Arrive(game, types, item, to, arriving, paths, m, S);
  }

  /** What those who look on see when the item has arrived, if it has arrived in a container. */
  method Arrive(game: Game, types: F.Types, item: Item, to: F.Item?, arriving: seq<Player>, ghost paths: Paths,
                ghost m: Move, ghost S: set<Item>)
    requires game.WellFormed() && (forall p :: p in arriving ==> game.Known(p)) && F.Forest(types, S) && item in S
    requires m.item == item && m.to == AsOption(to) && m.arriving == Ids(arriving) && item.parent == to && item in paths
    requires m.to.Some? ==> m.to.value in paths && item !in paths[m.to.value]
    requires PathsOf(S) == Rehung(paths, m.item, m.to)
    modifies game, game.players.Values
    ensures game.WellFormed()
    ensures game.View() == Closings(old(game.View()), m.arriving, TouchedByArriving(paths, m))
  {
    hide PathsOf, F.Linkage, F.Forest, Closings, Game.View, Game.WellFormed, Rehung;
    LinkedForest(types, S);
    if to != null {
      ArrivedAt(paths, S, m);
      AllSeeArriving(game, arriving, item, S);
    } else {
      NobodyTouched(game.View(), m.arriving);
    }
  }

  lemma {:induction false} LinkedForest(types: F.Types, S: set<Item>)
    requires F.Forest(types, S)
    ensures F.Linkage(S)
  {
  }

  lemma {:induction false} ListedHere(game: Game, S: set<Item>)
    requires game.tradeItems.Keys <= S
    ensures game.View().tradeItems.Keys <= PathsOf(S).Keys
  {
  }

  lemma {:induction false} PlacesHere(types: F.Types, S: set<Item>, item: Item, to: F.Item?)
    requires F.Forest(types, S) && item in S && (to != null ==> to in S && item !in to.path)
    ensures PathsOk(PathsOf(S)) && item in PathsOf(S)
    ensures AsOption(to).Some? ==> AsOption(to).value in PathsOf(S) && item !in PathsOf(S)[AsOption(to).value]
  {
    PathsAreOk(S);
  }

  lemma {:induction false} NobodyTouched(w: World, ps: seq<nat>)
    ensures Closings(w, ps, {}) == w
    decreases |ps|
  {
    if ps != [] { NobodyTouched(w, ps[1..]); }
  }

  /** Where the item has arrived, what it lies in is what the new container was or lay in before. */
  lemma {:induction false} ArrivedAt(before: Paths, S: set<Item>, m: Move)
    requires F.Linkage(S) && m.item in S && m.item in before && m.to.Some? && m.item.parent == m.to.value
    requires m.to.value in before && m.item !in before[m.to.value] && PathsOf(S) == Rehung(before, m.item, m.to)
    ensures (set t | t in m.item.path) == TouchedByArriving(before, m)
  {
    assert m.item.Linked(S);
    assert m.to.value.Linked(S);
  }

  /** The item is unlinked from where it is and linked below the new container, if there is one. */
  method Rehang(types: F.Types, item: Item, to: F.Item?, ghost m: Move, ghost S: set<Item>)
    requires F.Forest(types, S) && item in S && (to != null ==> to in S && to.isContainer && item !in to.path)
    requires m.item == item && m.from == AsOption(item.parent) && m.to == AsOption(to)
    modifies S
    ensures F.Forest(types, S) && item.parent == to
    ensures PathsOf(S) == Rehung(old(PathsOf(S)), m.item, m.to)
  {
    hide F.Forest, F.Linkage, Rehung, F.TotalsShifted, Nested;
    ghost var before := PathsOf(S);
    LinkedForest(types, S);
    PathsNested(S, m);
    Loosen(types, item, S);
    ghost var middle := PathsOf(S);
    if to != null {
      StillOutside(before, middle, m);
      to.InternalAddThing(types, item, S);
    }
    PathsRehung(before, middle, PathsOf(S), m);
  }

  /** The item is unlinked, if it lies in a container. */
  method Loosen(types: F.Types, item: Item, ghost S: set<Item>)
    requires F.Forest(types, S) && item in S
    modifies S
    ensures F.Forest(types, S) && item.parent == null
    ensures Loosened(old(PathsOf(S)), PathsOf(S), item, old(AsOption(item.parent)))
  {
    hide F.Forest, F.TotalsShifted, F.Linkage, F.Shrunk;
    var from := item.parent;
    if from != null {
      InContainer(types, S, item);
      ghost var index := from.RemoveThing(types, item, item.count, S);
    }
  }

  lemma {:induction false} InContainer(types: F.Types, S: set<Item>, x: Item)
    requires F.Forest(types, S) && x in S && x.parent != null
    ensures x.parent in S && x.parent.isContainer && x in x.parent.itemlist
  {
    assert x.Linked(S);
  }

  /** Paths through the item end at it. */
  ghost predicate Loosened(before: Paths, after: Paths, item: Item, from: Option<Item>) {
    && before.Keys == after.Keys && (from.Some? ==> from.value in before)
    && forall x :: x in before ==>
         after[x] == if from.Some? && item in before[x] then F.PathUpTo(before[x], |before[from.value]|) else before[x]
  }

  /** Paths through the item go on as its own path does. */
  ghost predicate Nested(paths: Paths, m: Move) {
    && m.item in paths && (m.from.Some? ==> m.from.value in paths && m.item !in paths[m.from.value])
    && paths[m.item] == [m.item] + (if m.from.Some? then paths[m.from.value] else [])
    && forall x :: x in paths && m.item in paths[x] ==>
         |paths[m.item]| <= |paths[x]| && paths[x][|paths[x]| - |paths[m.item]|..] == paths[m.item]
  }

  lemma {:induction false} OwnPath(S: set<Item>, x: Item)
    requires F.Linkage(S) && x in S
    ensures x.path == [x] + (if x.parent == null then [] else x.parent.path)
    ensures x.parent != null ==> x.parent in S && x !in x.parent.path
  {
    assert x.Linked(S);
    if x.parent != null && x in x.parent.path { F.PathIsSuffix(S, x.parent, x); }
  }

  lemma {:induction false} PathsNested(S: set<Item>, m: Move)
    requires F.Linkage(S) && m.item in S && m.from == AsOption(m.item.parent)
    ensures Nested(PathsOf(S), m)
  {
    OwnPath(S, m.item);
    hide F.Linkage;
    forall x | x in S && m.item in x.path
      ensures |m.item.path| <= |x.path| && x.path[|x.path| - |m.item.path|..] == m.item.path
    {
      F.PathIsSuffix(S, x, m.item);
    }
  }

  /** The item is still on the paths that it was on, which now end at it, and on no other. */
  lemma {:induction false} StillOn(before: Paths, middle: Paths, m: Move, x: Item)
    requires Nested(before, m) && Loosened(before, middle, m.item, m.from) && x in before
    ensures m.item in middle[x] <==> m.item in before[x]
    ensures middle[x] == if m.item in before[x] then UpTo(before, m.item, x) else before[x]
  {
    if m.item in before[x] {
      var p, n := before[x], |before[x]| - |before[m.item]|;
      assert p[n..][0] == p[n] == m.item;
      assert middle[x] == p[..n + 1] && p[..n + 1][n] == m.item;
    }
  }

  lemma {:induction false} StillOutside(before: Paths, middle: Paths, m: Move)
    requires Nested(before, m) && Loosened(before, middle, m.item, m.from)
    requires m.to.Some? && m.to.value in before && m.item !in before[m.to.value]
    ensures middle[m.to.value] == before[m.to.value]
  {
  }

  /** Loosened and linked again. */
  lemma {:induction false} PathsRehung(before: Paths, middle: Paths, after: Paths, m: Move)
    requires Nested(before, m) && Loosened(before, middle, m.item, m.from) && after.Keys == middle.Keys
    requires m.to.Some? ==> m.to.value in before && m.item !in before[m.to.value]
    requires forall x :: x in middle ==>
      after[x] == if m.to.Some? && m.item in middle[x] then middle[x] + middle[m.to.value] else middle[x]
    ensures after == Rehung(before, m.item, m.to)
  {
    hide UpTo, Nested, Loosened;
    SameKeys(before, middle, m);
    if m.to.Some? { StillOutside(before, middle, m); }
    forall x | x in before
      ensures after[x] == Rehung(before, m.item, m.to)[x]
    {
      StillOn(before, middle, m, x);
    }
  }

  lemma {:induction false} SameKeys(before: Paths, middle: Paths, m: Move)
    requires Nested(before, m) && Loosened(before, middle, m.item, m.from)
    ensures before.Keys == middle.Keys && m.item in before
  {
  }

  function AsOption(c: F.Item?): Option<Item> {
    if c == null then None else Some(c)
  }
}
