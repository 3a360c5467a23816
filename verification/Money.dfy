/** Paying with coins (src/game.cpp `removeMoney`, `addMoney`, `internalRemoveItem`; src/item.cpp `getWorth`).

  Paying collects all money that a container holds at any depth, in order of its worth, removes whole
  stacks from wherever they lie while they are worth less than what is owed, and breaks at most one stack,
  giving change.  Change is handed out greedily from the most valuable currency down, into the container
  or onto the ground. */
module Money {
  import opened ItemForest
  import opened ItemMoves

  /** The worth of one item of each type; 0 for what is not money. */
  type WorthOf = nat -> nat

  function StackWorth(w: WorthOf, x: Stack): nat {
    w(x.id) * x.count
  }

  function ContentWorth(w: WorthOf, s: seq<Stack>): nat {
    if s == [] then 0 else StackWorth(w, s[0]) + ContentWorth(w, s[1..])
  }

  /** What all contents of a forest are worth. */
  ghost function StockWorth(w: WorthOf, stock: map<Item, seq<Stack>>): nat
    decreases stock.Keys
  {
    if stock == map[] then 0 else
      var c :| c in stock;
      ContentWorth(w, stock[c]) + StockWorth(w, stock - {c})
  }

  lemma {:induction false} WorthJoined(w: WorthOf, s: seq<Stack>, t: seq<Stack>)
    ensures ContentWorth(w, s + t) == ContentWorth(w, s) + ContentWorth(w, t)
  {
    hide StackWorth;
    if s == [] {
      assert s + t == t;
    } else {
      assert (s + t)[1..] == s[1..] + t;
      WorthJoined(w, s[1..], t);
    }
  }

  lemma {:induction false} WorthAround(w: WorthOf, s: seq<Stack>, k: nat)
    requires k < |s|
    ensures ContentWorth(w, s) == ContentWorth(w, s[..k]) + StackWorth(w, s[k]) + ContentWorth(w, s[k + 1..])
  {
    hide StackWorth;
    assert s == s[..k] + ([s[k]] + s[k + 1..]);
    WorthJoined(w, s[..k], [s[k]] + s[k + 1..]);
    assert ([s[k]] + s[k + 1..])[1..] == s[k + 1..];
  }

  lemma {:induction false} WorthUpdated(w: WorthOf, s: seq<Stack>, k: nat, x: Stack)
    requires k < |s|
    ensures ContentWorth(w, s[k := x]) == ContentWorth(w, s) - StackWorth(w, s[k]) + StackWorth(w, x)
  {
    hide StackWorth, ContentWorth;
    WorthAround(w, s, k);
    WorthAround(w, s[k := x], k);
    assert s[k := x][..k] == s[..k] && s[k := x][k + 1..] == s[k + 1..];
  }

  lemma {:induction false} WorthDropped(w: WorthOf, s: seq<Stack>, k: nat)
    requires k < |s|
    ensures ContentWorth(w, s[..k] + s[k + 1..]) == ContentWorth(w, s) - StackWorth(w, s[k])
  {
    hide StackWorth, ContentWorth;
    WorthAround(w, s, k);
    WorthJoined(w, s[..k], s[k + 1..]);
  }

  /** Filling up one stack adds the worth of what it takes. */
  lemma {:induction false} FilledWorth(w: WorthOf, types: Types, s: seq<Stack>, x: Stack, t: int, m: nat)
    requires t < |s| && types(x.id).stackable && !types(x.id).fluid && (t >= 0 ==> s[t].count <= MAX_STACK)
    ensures ContentWorth(w, Filled(types, s, x, t, m)) == ContentWorth(w, s) + w(x.id) * Share(s, x, t, m)
  {
    if t >= 0 && s[t].id == x.id && s[t].attrs == x.attrs {
      var y := Updated(types, s[t], s[t].count + Share(s, x, t, m));
      WorthUpdated(w, s, t, y);
      Distribute(w(x.id), s[t].count, Share(s, x, t, m));
      assert y.id == x.id && y.count == s[t].count + Share(s, x, t, m);
    }
  }

  /** Stowing units adds their worth. */
  lemma {:induction false} StowedWorth(w: WorthOf, types: Types, s: seq<Stack>, x: Stack, n: nat, auto: bool)
    requires types(x.id).stackable && !types(x.id).fluid
    ensures ContentWorth(w, Stowed(types, s, x, n, auto)) == ContentWorth(w, s) + w(x.id) * n
    decreases n
  {
    hide Filled, Share, Fills;
    var k := if auto then FirstRoom(s, x) else -1;
    if n > 0 && k >= 0 {
      var share := Share(s, x, k, n);
      FirstFills(s, x, n);
      FilledWorth(w, types, s, x, k, n);
      hide ContentWorth;
      StowedWorth(w, types, Filled(types, s, x, k, n), x, n - share, auto);
      Distribute(w(x.id), share, n - share);
    } else if n > 0 {
      assert ([x.(count := n)] + s)[1..] == s;
    }
  }

  lemma {:induction false} FirstFills(s: seq<Stack>, x: Stack, n: nat)
    requires 0 < n
    ensures var k := FirstRoom(s, x); k >= 0 ==> s[k].count <= MAX_STACK && 0 < Share(s, x, k, n) <= n
  {
  }

  lemma {:induction false} Distribute(a: nat, x: int, y: int)
    ensures a * (x + y) == a * x + a * y
  {
  }

  // ---- the worth of a forest --------------------------------------------------------------------

  lemma {:induction false} StockWorthAt(w: WorthOf, stock: map<Item, seq<Stack>>, c: Item)
    requires c in stock
    ensures StockWorth(w, stock) == ContentWorth(w, stock[c]) + StockWorth(w, stock - {c})
    decreases stock.Keys
  {
    var d :| d in stock && StockWorth(w, stock) == ContentWorth(w, stock[d]) + StockWorth(w, stock - {d});
    if d != c {
      StockWorthAt(w, stock - {d}, c);
      StockWorthAt(w, stock - {c}, d);
      assert stock - {d} - {c} == stock - {c} - {d};
    }
  }

  /** When one content changes, so does the worth. */
  lemma {:induction false} WorthChanged(w: WorthOf, before: map<Item, seq<Stack>>, after: map<Item, seq<Stack>>, c: Item)
    requires c in before && before.Keys == after.Keys && forall x :: x in before && x != c ==> after[x] == before[x]
    ensures StockWorth(w, after) + ContentWorth(w, before[c]) == StockWorth(w, before) + ContentWorth(w, after[c])
  {
    hide ContentWorth, StockWorth;
    StockWorthAt(w, before, c);
    StockWorthAt(w, after, c);
    assert before - {c} == after - {c};
  }

  /** Items that hold nothing add no worth. */
  lemma {:induction false} WorthOfMore(w: WorthOf, stock: map<Item, seq<Stack>>, more: map<Item, seq<Stack>>)
    requires stock.Keys <= more.Keys && (forall x :: x in stock ==> more[x] == stock[x])
    requires forall x :: x in more && x !in stock ==> more[x] == []
    ensures StockWorth(w, more) == StockWorth(w, stock)
    decreases more.Keys
  {
    if more.Keys == stock.Keys {
      assert more == stock;
    } else {
      var x :| x in more && x !in stock;
      StockWorthAt(w, more, x);
      WorthOfMore(w, stock, more - {x});
    }
  }

  /** One content changed and items that hold nothing came in. */
  lemma {:induction false} WorthGrown(w: WorthOf, before: map<Item, seq<Stack>>, after: map<Item, seq<Stack>>, c: Item)
    requires c in before && before.Keys <= after.Keys
    requires forall x :: x in before && x != c ==> after[x] == before[x]
    requires forall x :: x in after && x !in before ==> after[x] == []
    ensures StockWorth(w, after) + ContentWorth(w, before[c]) == StockWorth(w, before) + ContentWorth(w, after[c])
  {
    hide ContentWorth, StockWorth;
    var middle := map x | x in before :: after[x];
    WorthOfMore(w, middle, after);
    WorthChanged(w, before, middle, c);
  }

  // ---- change -----------------------------------------------------------------------------------

  /** The map `currencyItems`: worth and item type, most valuable first. */
  type Currencies = seq<(nat, nat)>

  ghost predicate ValidCurrencies(w: WorthOf, cs: Currencies) {
    && (forall i :: 0 <= i < |cs| ==> cs[i].0 > 0 && w(cs[i].1) == cs[i].0)
    && (forall i, j :: 0 <= i < j < |cs| ==> cs[i].0 > cs[j].0)
  }

  /** What greedy change leaves unpaid. */
  function Leftover(cs: Currencies, money: nat): (m: nat)
    requires forall i :: 0 <= i < |cs| ==> cs[i].0 > 0
    ensures m <= money
  {
    if cs == [] then money else Leftover(cs[1..], money % cs[0].0)
  }

  /** What whole coins of one worth come to beyond what is owed. */
  function Overpaid(unit: nat, owed: nat): nat {
    if unit == 0 then 0 else (unit - owed % unit) % unit
  }

  ghost predicate HasUnitCoin(cs: Currencies) {
    exists i :: 0 <= i < |cs| && cs[i].0 == 1
  }

  lemma {:induction false} NothingLeftOfNothing(cs: Currencies)
    requires forall i :: 0 <= i < |cs| ==> cs[i].0 > 0
    ensures Leftover(cs, 0) == 0
  {
    if cs != [] { NothingLeftOfNothing(cs[1..]); }
  }

  /** Every amount can be paid out in full exactly when there is a coin of worth one. */
  lemma {:induction false} ChangeIsExact(cs: Currencies)
    requires forall i :: 0 <= i < |cs| ==> cs[i].0 > 0
    ensures HasUnitCoin(cs) <==> forall m: nat :: Leftover(cs, m) == 0
  {
    if HasUnitCoin(cs) {
      forall m: nat
        ensures Leftover(cs, m) == 0
      {
        UnitCoinPaysAll(cs, m);
      }
    } else {
      OneIsNotPaid(cs);
      assert Leftover(cs, 1) != 0;
    }
  }

  lemma {:induction false} UnitCoinPaysAll(cs: Currencies, m: nat)
    requires HasUnitCoin(cs) && forall i :: 0 <= i < |cs| ==> cs[i].0 > 0
    ensures Leftover(cs, m) == 0
  {
    if cs[0].0 == 1 {
      NothingLeftOfNothing(cs[1..]);
    } else {
      var i :| 0 <= i < |cs| && cs[i].0 == 1;
      assert cs[1..][i - 1].0 == 1;
      UnitCoinPaysAll(cs[1..], m % cs[0].0);
    }
  }

  lemma {:induction false} OneIsNotPaid(cs: Currencies)
    requires !HasUnitCoin(cs) && forall i :: 0 <= i < |cs| ==> cs[i].0 > 0
    ensures Leftover(cs, 1) == 1
  {
    if cs != [] {
      assert cs[0].0 != 1;
      assert forall i :: 0 <= i < |cs| - 1 ==> cs[1..][i] == cs[i + 1];
      OneIsNotPaid(cs[1..]);
    }
  }

  /** What greedy change is worth when each coin is worth what `g` says. */
  function Given(g: WorthOf, cs: Currencies, money: nat): nat
    requires forall i :: 0 <= i < |cs| ==> cs[i].0 > 0
  {
    if cs == [] then 0 else g(cs[0].1) * (money / cs[0].0) + Given(g, cs[1..], money % cs[0].0)
  }

  /** Counting the coins of one type. */
  function Only(id: nat): WorthOf {
    k => if k == id then 1 else 0
  }

  lemma {:induction false} GivenCounts(cs: Currencies, money: nat, id: nat)
    requires forall i :: 0 <= i < |cs| ==> cs[i].0 > 0
    ensures Given(Only(id), cs, money) == Change(cs, money, id)
  {
    if cs != [] {
      GivenCounts(cs[1..], money % cs[0].0, id);
    }
  }

  /** By its own worth, change and what it leaves unpaid make up the amount. */
  lemma {:induction false} GivenIsPaid(w: WorthOf, cs: Currencies, money: nat)
    requires ValidCurrencies(w, cs)
    ensures Given(w, cs, money) + Leftover(cs, money) == money
  {
    if cs != [] {
      assert ValidCurrencies(w, cs[1..]);
      GivenIsPaid(w, cs[1..], money % cs[0].0);
      Divided(money, cs[0].0);
    }
  }

  /** How many coins of a type greedy change hands out. */
  function Change(cs: Currencies, money: nat, id: nat): nat
    requires forall i :: 0 <= i < |cs| ==> cs[i].0 > 0
  {
    if cs == [] then 0 else (if cs[0].1 == id then money / cs[0].0 else 0) + Change(cs[1..], money % cs[0].0, id)
  }

  /** What the currencies from `i` on still hand out. */
  ghost function GivenFrom(g: WorthOf, cs: Currencies, i: nat, money: nat): nat
    requires i <= |cs| && forall j :: 0 <= j < |cs| ==> cs[j].0 > 0
  {
    Given(g, cs[i..], money)
  }

  ghost function Unpaid(cs: Currencies, i: nat, money: nat): nat
    requires i <= |cs| && forall j :: 0 <= j < |cs| ==> cs[j].0 > 0
  {
    Leftover(cs[i..], money)
  }

  lemma {:induction false} UnpaidSteps(cs: Currencies, money: nat)
    requires forall j :: 0 <= j < |cs| ==> cs[j].0 > 0
    ensures Unpaid(cs, 0, money) == Leftover(cs, money) && Unpaid(cs, |cs|, money) == money
    ensures forall i :: 0 <= i < |cs| ==> Unpaid(cs, i, money) == Unpaid(cs, i + 1, money % cs[i].0)
  {
    assert cs[0..] == cs;
    forall i | 0 <= i < |cs|
      ensures Unpaid(cs, i, money) == Unpaid(cs, i + 1, money % cs[i].0)
    {
      assert cs[i..][1..] == cs[i + 1..];
    }
  }

  /** One currency hands out what it can. */
  lemma {:induction false} HandOut(cs: Currencies, i: nat, money: nat)
    requires i < |cs| && forall j :: 0 <= j < |cs| ==> cs[j].0 > 0
    ensures var n := money / cs[i].0; var rest := money - n * cs[i].0;
      && 0 <= n && 0 <= rest && (n == 0 ==> rest == money) && (n > 0 ==> cs[i].0 <= money)
      && Unpaid(cs, i, money) == Unpaid(cs, i + 1, rest)
      && forall g: WorthOf :: GivenFrom(g, cs, i, money) == g(cs[i].1) * n + GivenFrom(g, cs, i + 1, rest)
  {
    hide Unpaid;
    Divided(money, cs[i].0);
    UnpaidSteps(cs, money);
    assert cs[i..][1..] == cs[i + 1..];
  }

  lemma {:induction false} GivenSteps(g: WorthOf, cs: Currencies, money: nat)
    requires forall j :: 0 <= j < |cs| ==> cs[j].0 > 0
    ensures GivenFrom(g, cs, 0, money) == Given(g, cs, money) && GivenFrom(g, cs, |cs|, money) == 0
  {
    assert cs[0..] == cs;
  }

  lemma {:induction false} NothingGiven(g: WorthOf, cs: Currencies)
    requires forall i :: 0 <= i < |cs| ==> cs[i].0 > 0
    ensures Given(g, cs, 0) == 0
  {
    if cs != [] {
      NothingGiven(g, cs[1..]);
    }
  }

  /** Greedy change never hands out coins that a single more valuable one could replace. */
  lemma {:induction false} ChangeIsGreedy(cs: Currencies, money: nat, i: nat)
    requires 0 < i < |cs| && forall j :: 0 <= j < |cs| ==> cs[j].0 > 0
    requires forall j, k :: 0 <= j < k < |cs| ==> cs[j].1 != cs[k].1
    ensures Change(cs, money, cs[i].1) * cs[i].0 < cs[i - 1].0
  {
    if i == 1 {
      var rest := money % cs[0].0;
      assert cs[1..][0] == cs[1];
      ChangeOfOthers(cs[1..][1..], rest % cs[1].0, cs[1].1);
      Divided(rest, cs[1].0);
    } else {
      assert cs[1..][i - 1] == cs[i] && cs[1..][i - 2] == cs[i - 1];
      ChangeIsGreedy(cs[1..], money % cs[0].0, i - 1);
    }
  }

  lemma {:induction false} ChangeOfOthers(cs: Currencies, money: nat, id: nat)
    requires forall j :: 0 <= j < |cs| ==> cs[j].0 > 0 && cs[j].1 != id
    ensures Change(cs, money, id) == 0
  {
    if cs != [] {
      ChangeOfOthers(cs[1..], money % cs[0].0, id);
    }
  }

  // ---- the place of change ----------------------------------------------------------------------

  /** The stacks that coins of one type are handed out in: full ones, and one with the rest. */
  function Rolls(id: nat, coins: nat): (r: seq<Stack>) {
    if coins == 0 then []
    else if coins < MAX_STACK then [Stack(id, coins, map[])]
    else [Stack(id, MAX_STACK, map[])] + Rolls(id, coins - MAX_STACK)
  }

  /** The stacks that greedy change is handed out in. */
  function AllRolls(cs: Currencies, money: nat): seq<Stack>
    requires forall i :: 0 <= i < |cs| ==> cs[i].0 > 0
  {
    if cs == [] then [] else Rolls(cs[0].1, money / cs[0].0) + AllRolls(cs[1..], money % cs[0].0)
  }

  /** As few stacks as can be. */
  lemma {:induction false} RollsAreFew(id: nat, coins: nat)
    ensures |Rolls(id, coins)| == (coins + MAX_STACK - 1) / MAX_STACK
    ensures forall x :: x in Rolls(id, coins) ==> x.id == id && x.attrs == map[] && 1 <= x.count <= MAX_STACK
  {
    if coins >= MAX_STACK { RollsAreFew(id, coins - MAX_STACK); }
  }

  lemma {:induction false} RollsAreWorth(g: WorthOf, id: nat, coins: nat)
    ensures ContentWorth(g, Rolls(id, coins)) == g(id) * coins
  {
    if coins >= MAX_STACK {
      RollsAreWorth(g, id, coins - MAX_STACK);
      assert Rolls(id, coins)[1..] == Rolls(id, coins - MAX_STACK);
      Distribute(g(id), MAX_STACK, coins - MAX_STACK);
    } else if coins > 0 {
      assert ContentWorth(g, Rolls(id, coins)[1..]) == 0;
    }
  }

  /** Together the stacks are the change, whatever a coin is worth. */
  lemma {:induction false} AllRollsAreGiven(g: WorthOf, cs: Currencies, money: nat)
    requires forall i :: 0 <= i < |cs| ==> cs[i].0 > 0
    ensures ContentWorth(g, AllRolls(cs, money)) == Given(g, cs, money)
  {
    hide ContentWorth;
    if cs == [] {
      NoneWorth(g);
    } else {
      RollsAreWorth(g, cs[0].1, money / cs[0].0);
      AllRollsAreGiven(g, cs[1..], money % cs[0].0);
      WorthJoined(g, Rolls(cs[0].1, money / cs[0].0), AllRolls(cs[1..], money % cs[0].0));
    }
  }

  lemma {:induction false} NoneWorth(g: WorthOf)
    ensures ContentWorth(g, []) == 0
  {
  }

  /** The room that the stacks of a content have for `x`. */
  function RoomFor(s: seq<Stack>, x: Stack): nat {
    if s == [] then 0 else (if Fills(s[0], x) then MAX_STACK - s[0].count else 0) + RoomFor(s[1..], x)
  }

  /** How many units like `x` a container of this size has space for: in free slots and in its stacks, or without
    auto-stacking in one free slot. */
  function Space(s: seq<Stack>, size: nat, x: Stack, auto: bool): nat {
    if auto then (if |s| <= size then size - |s| else 0) * MAX_STACK + RoomFor(s, x)
    else if |s| < size then MAX_STACK else 0
  }

  predicate FitsIn(types: Types, s: seq<Stack>, size: nat, x: Stack, auto: bool) {
    types(x.id).pickupable && x.count <= Space(s, size, x, auto)
  }

  /** A content that stacks are added to one after the other, each if it fits. */
  function Received(types: Types, s: seq<Stack>, size: nat, xs: seq<Stack>, auto: bool): seq<Stack>
    decreases |xs|
  {
    if xs == [] then s else
      var t := if FitsIn(types, s, size, xs[0], auto) then Stowed(types, s, xs[0].(count := 0), xs[0].count, auto) else s;
      Received(types, t, size, xs[1..], auto)
  }

  /** The stacks that do not fit when their turn comes. */
  function Refused(types: Types, s: seq<Stack>, size: nat, xs: seq<Stack>, auto: bool): seq<Stack>
    decreases |xs|
  {
    if xs == [] then [] else
      if FitsIn(types, s, size, xs[0], auto)
      then Refused(types, Stowed(types, s, xs[0].(count := 0), xs[0].count, auto), size, xs[1..], auto)
      else [xs[0]] + Refused(types, s, size, xs[1..], auto)
  }

  /** Stacks of a coin, fresh and of up to a hundred. */
  predicate CoinStacks(types: Types, xs: seq<Stack>) {
    forall i :: 0 <= i < |xs| ==>
      types(xs[i].id).stackable && !types(xs[i].id).fluid && 1 <= xs[i].count <= MAX_STACK && xs[i].attrs == map[]
  }

  lemma {:induction false} RoomUpdated(s: seq<Stack>, k: nat, y: Stack, x: Stack)
    requires k < |s|
    ensures RoomFor(s[k := y], x) + (if Fills(s[k], x) then MAX_STACK - s[k].count else 0) ==
      RoomFor(s, x) + (if Fills(y, x) then MAX_STACK - y.count else 0)
  {
    if k > 0 {
      assert s[k := y][1..] == s[1..][k - 1 := y];
      RoomUpdated(s[1..], k - 1, y, x);
    }
  }

  lemma {:induction false} NoRoomFor(s: seq<Stack>, x: Stack)
    requires FirstRoom(s, x) < 0
    ensures RoomFor(s, x) == 0
  {
    if s != [] { NoRoomFor(s[1..], x); }
  }

  lemma {:induction false} RoomOfKind(s: seq<Stack>, x: Stack, n: nat)
    ensures RoomFor(s, x.(count := n)) == RoomFor(s, x)
  {
    if s != [] { RoomOfKind(s[1..], x, n); }
  }

  /** Filling up a stack uses up room, for its own kind and for no other. */
  lemma {:induction false} RoomFilled(types: Types, s: seq<Stack>, x: Stack, k: nat, n: nat, y: Stack)
    requires k < |s| && Fills(s[k], x) && types(x.id).stackable && !types(x.id).fluid && 1 <= n
    requires x.attrs == map[] && y.attrs == map[]
    ensures RoomFor(Filled(types, s, x, k, n), y) <= RoomFor(s, y)
    ensures Share(s, x, k, n) < n ==>
      RoomFor(Filled(types, s, x, k, n), x) == RoomFor(s, x) - Share(s, x, k, n)
  {
    var z := Updated(types, s[k], s[k].count + Share(s, x, k, n));
    RoomUpdated(s, k, z, y);
    RoomUpdated(s, k, z, x);
  }

  /** What is stowed leaves no more space than there was, for anything. */
  lemma {:induction false} SpaceUsed(types: Types, s: seq<Stack>, size: nat, x: Stack, n: nat, auto: bool, y: Stack)
    requires types(x.id).stackable && !types(x.id).fluid && n <= MAX_STACK && n <= Space(s, size, x, auto)
    requires x.attrs == map[] && y.attrs == map[]
    ensures Space(Stowed(types, s, x, n, auto), size, y, auto) <= Space(s, size, y, auto)
    decreases n
  {
    hide Filled, Share;
    var k := if auto then FirstRoom(s, x) else -1;
    if n > 0 {
      if k < 0 {
        if auto { NoRoomFor(s, x); }
        assert ([x.(count := n)] + s)[1..] == s;
      } else {
        var t, m := Filled(types, s, x, k, n), Share(s, x, k, n);
        RoomFilled(types, s, x, k, n, y);
        FillsSome(s, x, k, n);
        if m < n {
          SpaceUsed(types, t, size, x, n - m, auto, y);
        } else {
          NothingStowed(types, t, x, auto);
        }
      }
    }
  }

  lemma {:induction false} FillsSome(s: seq<Stack>, x: Stack, k: nat, n: nat)
    requires k < |s| && Fills(s[k], x) && 1 <= n
    ensures 1 <= Share(s, x, k, n)
  {
  }

  /** No space is gained while stacks are added. */
  lemma {:induction false} SpaceShrinks(types: Types, s: seq<Stack>, size: nat, xs: seq<Stack>, auto: bool, y: Stack)
    requires CoinStacks(types, xs) && y.attrs == map[]
    ensures Space(Received(types, s, size, xs, auto), size, y, auto) <= Space(s, size, y, auto)
    decreases |xs|
  {
    hide Space, Stowed;
    if xs != [] {
      var x := xs[0].(count := 0);
      if FitsIn(types, s, size, xs[0], auto) {
        SpaceOfKind(s, size, xs[0], 0, auto);
        SpaceUsed(types, s, size, x, xs[0].count, auto, y);
        SpaceShrinks(types, Stowed(types, s, x, xs[0].count, auto), size, xs[1..], auto, y);
      } else {
        SpaceShrinks(types, s, size, xs[1..], auto, y);
      }
    }
  }

  lemma {:induction false} SpaceOfKind(s: seq<Stack>, size: nat, x: Stack, n: nat, auto: bool)
    ensures Space(s, size, x.(count := n), auto) == Space(s, size, x, auto)
  {
    RoomOfKind(s, x, n);
  }

  /** What is refused does not fit in the end either. */
  lemma {:induction false} RefusedDoesNotFit(types: Types, s: seq<Stack>, size: nat, xs: seq<Stack>, auto: bool)
    requires CoinStacks(types, xs)
    ensures forall g :: g in Refused(types, s, size, xs, auto) ==>
      g in xs && !FitsIn(types, Received(types, s, size, xs, auto), size, g, auto)
    decreases |xs|
  {
    hide Space, Stowed;
    if xs != [] {
      var x := xs[0].(count := 0);
      if FitsIn(types, s, size, xs[0], auto) {
        RefusedDoesNotFit(types, Stowed(types, s, x, xs[0].count, auto), size, xs[1..], auto);
      } else {
        RefusedDoesNotFit(types, s, size, xs[1..], auto);
        SpaceShrinks(types, s, size, xs[1..], auto, xs[0]);
      }
    }
  }

  /** With a free slot for every stack nothing is refused. */
  lemma {:induction false} NothingIsRefused(types: Types, s: seq<Stack>, size: nat, xs: seq<Stack>, auto: bool)
    requires CoinStacks(types, xs) && |s| + |xs| <= size && forall i :: 0 <= i < |xs| ==> types(xs[i].id).pickupable
    ensures Refused(types, s, size, xs, auto) == []
    decreases |xs|
  {
    hide Stowed;
    if xs != [] {
      var x := xs[0].(count := 0);
      StowedCounts(types, s, x, xs[0].count, auto, 0);
      NothingIsRefused(types, Stowed(types, s, x, xs[0].count, auto), size, xs[1..], auto);
    }
  }

  // ---- handing out change -----------------------------------------------------------------------

  /** Every item stays where it is, only stacks of `id` have grown, and no other container than `c` has a child more. */
  ghost predicate KeptBut(before: map<Item, Face>, after: map<Item, Face>, c: Item, id: nat) {
    && before.Keys <= after.Keys
    && (forall x :: x in before ==>
          && after[x].parent == before[x].parent && after[x].id == before[x].id && after[x].count >= before[x].count
          && (before[x].id != id ==> after[x].count == before[x].count)
          && (x != c ==> after[x].list == before[x].list))
    && (forall x :: x in after && x !in before ==> !x.isContainer)
  }

  /** As `KeptBut`, where every stack of coins worth more than `limit` each is the same. */
  ghost predicate KeptAbove(w: WorthOf, before: map<Item, Face>, after: map<Item, Face>, c: Item, limit: nat) {
    && before.Keys <= after.Keys
    && (forall x :: x in before ==>
          && after[x].parent == before[x].parent && after[x].id == before[x].id && after[x].count >= before[x].count
          && (w(before[x].id) > limit ==> after[x].count == before[x].count)
          && (x != c ==> after[x].list == before[x].list))
    && (forall x :: x in after && x !in before ==> !x.isContainer)
  }

  lemma {:induction false} KeptTwice(a: map<Item, Face>, b: map<Item, Face>, e: map<Item, Face>, c: Item, id: nat)
    requires KeptBut(a, b, c, id) && KeptBut(b, e, c, id)
    ensures KeptBut(a, e, c, id)
  {
  }

  lemma {:induction false} KeptFurther(w: WorthOf, a: map<Item, Face>, b: map<Item, Face>, e: map<Item, Face>, c: Item,
                                       id: nat, limit: nat)
    requires KeptAbove(w, a, b, c, limit) && KeptBut(b, e, c, id) && w(id) <= limit
    ensures KeptAbove(w, a, e, c, limit)
  {
  }

  /** By any worth, `n` items of type `id` are in the forest or on the ground in addition. */
  ghost predicate Grew(before: map<Item, seq<Stack>>, after: map<Item, seq<Stack>>, ground: seq<Stack>, id: nat, n: nat) {
    forall g: WorthOf :: StockWorth(g, after) + ContentWorth(g, ground) == StockWorth(g, before) + g(id) * n
  }

  lemma {:induction false} GrewTwice(a: map<Item, seq<Stack>>, b: map<Item, seq<Stack>>, e: map<Item, seq<Stack>>,
                                     s: seq<Stack>, t: seq<Stack>, id: nat, n: nat, m: nat)
    requires Grew(a, b, s, id, n) && Grew(b, e, t, id, m)
    ensures Grew(a, e, s + t, id, n + m)
  {
    hide StockWorth, ContentWorth;
    forall g: WorthOf
      ensures StockWorth(g, e) + ContentWorth(g, s + t) == StockWorth(g, a) + g(id) * (n + m)
    {
      WorthJoined(g, s, t);
      Distribute(g(id), n, m);
    }
  }

  /** A new stack of coins wherever there is room is stowed. */
  lemma {:induction false} CoinIsStowed(types: Types, c: Item, coin: Item, flags: Flags)
    requires c.isContainer && coin.parent == null && types(coin.id).stackable && 0 < coin.count
    ensures var d := Chosen(types, c, INDEX_WHEREEVER, coin, flags);
      var s, auto := Content(c.itemlist), !flags.ignoreAutoStack;
      && d.cylinder == c && SlotOf(d) < |s|
      && forall open :: Added(types, s, StackOf(coin), SlotOf(d), auto, open) ==
           Stowed(types, s, KindOf(coin), coin.count, auto)
  {
    AddedIsStowed(types, Content(c.itemlist), StackOf(coin), !flags.ignoreAutoStack);
    hide Added, Stowed, Content;
  }

  lemma {:induction false} RoomOfContent(s: seq<Item>, x: Item)
    requires x !in s
    ensures RoomIn(s, x) == RoomFor(Content(s), StackOf(x))
  {
    if s != [] {
      assert s[0] in s && Content(s)[0] == StackOf(s[0]) && Content(s)[1..] == Content(s[1..]);
      RoomOfContent(s[1..], x);
    }
  }

  /** A loose stack of coins is added exactly when it fits. */
  lemma {:induction false} CoinFits(types: Types, S: set<Item>, c: Item, coin: Item, flags: Flags)
    requires Forest(types, S) && c in S && c.isContainer && coin in S && coin.parent == null && !coin.isContainer
    requires types(coin.id).stackable && 1 <= coin.count <= MAX_STACK && !flags.noLimit && !flags.childIsOwner
    ensures AddOutcome(types, c, INDEX_WHEREEVER, coin, flags) == NoError <==>
      FitsIn(types, Content(c.itemlist), c.maxSize, StackOf(coin), !flags.ignoreAutoStack)
  {
    assert Linkage(S) && c.Linked(S);
    if coin in c.path {
      PathIsParentChain(S, c);
      var i :| 0 <= i < |c.path| && c.path[i] == coin;
      ChainLinked(S, c, i);
    }
    assert coin !in c.itemlist;
    RoomOfContent(c.itemlist, coin);
    StackIsAdded(types, c, coin, flags, S);
    hide AddOutcome, RoomIn, RoomFor, Content, Linkage, Forest;
  }

  /** Stowed or on the ground, the coins are there in addition. */
  lemma {:induction false} StackGiven(types: Types, before: map<Item, seq<Stack>>, after: map<Item, seq<Stack>>, c: Item,
                                      id: nat, count: nat, auto: bool, ground: seq<Stack>)
    requires types(id).stackable && !types(id).fluid && c in before && before.Keys <= after.Keys
    requires forall x :: x in before && x != c ==> after[x] == before[x]
    requires forall x :: x in after && x !in before ==> after[x] == []
    requires var coin := Stack(id, 0, map[]);
      if ground == [] then after[c] == Stowed(types, before[c], coin, count, auto)
      else ground == [coin.(count := count)] && after[c] == before[c]
    ensures Grew(before, after, ground, id, count)
  {
    hide StockWorth, Stowed;
    forall g: WorthOf
      ensures StockWorth(g, after) + ContentWorth(g, ground) == StockWorth(g, before) + g(id) * count
    {
      WorthGrown(g, before, after, c);
      StowedWorth(g, types, before[c], Stack(id, 0, map[]), count, auto);
      if ground != [] { assert ground[1..] == []; }
    }
  }

  lemma {:induction false} LeavesHoldNothing(types: Types, S: set<Item>, T: set<Item>)
    requires Forest(types, T) && S <= T && forall x :: x in T - S ==> !x.isContainer
    ensures forall x :: x in T && x !in S ==> Content(x.itemlist) == []
  {
    forall x | x in T && x !in S
      ensures Content(x.itemlist) == []
    {
      assert x.Linked(T);
    }
  }

  /** The stack `x` is in the container if it fits, and on the ground otherwise. */
  ghost predicate Tried(types: Types, s: seq<Stack>, after: seq<Stack>, ground: seq<Stack>, size: nat, x: Stack,
                        auto: bool) {
    if FitsIn(types, s, size, x, auto) then ground == [] && after == Stowed(types, s, x.(count := 0), x.count, auto)
    else ground == [x] && after == s
  }

  /** One turn of the inner loop of `addMoney`: a stack of coins goes into the container or, if that does not take
    all of it, to the ground. */
  method AddStack(types: Types, c: Item, id: nat, count: nat, flags: Flags, ghost S: set<Item>)
    returns (ground: seq<Stack>, ghost T: set<Item>)
    requires TypesOk(types) && Forest(types, S) && WellStocked(types, S) && c in S && c.isContainer
    requires types(id).stackable && 1 <= count <= MAX_STACK && !flags.noLimit && !flags.childIsOwner
    modifies S
    ensures S <= T && fresh(T - S) && Forest(types, T) && WellStocked(types, T)
    ensures KeptBut(old(Faces(S)), Faces(T), c, id) && Grew(old(Stock(S)), Stock(T), ground, id, count)
    ensures Tried(types, old(Stock(S))[c], Stock(T)[c], ground, c.maxSize, Stack(id, count, map[]), !flags.ignoreAutoStack)
  {
    hide Forest, WellStocked, Linkage, Content, AddOutcome, Chosen, Added, Lost, Stowed, Grew, Overflows, Stock, Faces,
         KeptBut, FitsIn;
    ghost var faces, stock := Faces(S), Stock(S);
    var remaindItem, ret;
    remaindItem, ret, T := AddNew(types, c, id, count, flags, S);
    ground := if ret != NoError then [Stack(id, count, map[])] else [];
    StackGiven(types, stock, Stock(T), c, id, count, !flags.ignoreAutoStack, ground);
  }

  /** A new stack is created and added. */
  method AddNew(types: Types, c: Item, id: nat, count: nat, flags: Flags, ghost S: set<Item>)
    returns (remaindItem: Item, ret: ReturnValue, ghost T: set<Item>)
    requires TypesOk(types) && Forest(types, S) && WellStocked(types, S) && c in S && c.isContainer
    requires types(id).stackable && 1 <= count <= MAX_STACK && !flags.noLimit && !flags.childIsOwner
    modifies S
    ensures S <= T && fresh(T - S) && Forest(types, T) && WellStocked(types, T)
    ensures KeptBut(old(Faces(S)), Faces(T), c, id)
    ensures ret == NoError <==>
      FitsIn(types, old(Stock(S))[c], c.maxSize, Stack(id, count, map[]), !flags.ignoreAutoStack)
    ensures forall x :: x in S && x != c ==> Stock(T)[x] == old(Stock(S))[x]
    ensures forall x :: x in T && x !in S ==> Stock(T)[x] == []
    ensures Stock(T)[c] ==
      if ret != NoError then old(Stock(S))[c]
      else Stowed(types, old(Stock(S))[c], Stack(id, 0, map[]), count, !flags.ignoreAutoStack)
  {
    hide Forest, WellStocked, Linkage, Content, AddOutcome, Chosen, Added, Lost, Stowed, Overflows, KeptBut, Faces, FitsIn,
         Landed, TargetOf;
    remaindItem := new Item(false, 0, id, count, map[]);
    LooseItemJoins(types, S, remaindItem);
    CoinIsStowed(types, c, remaindItem, flags);
    CoinFits(types, S + {remaindItem}, c, remaindItem, flags);
    var rc, d;
    ret, rc, d, T := InternalAddItem(types, c, remaindItem, INDEX_WHEREEVER, flags, false, S + {remaindItem});
    LeavesHoldNothing(types, S, T);
    FacesKept(S, T, c, id);
  }

  twostate lemma {:induction false} FacesKept(new S: set<Item>, new T: set<Item>, new c: Item, new id: nat)
    requires old(allocated(S)) && old(allocated(c)) && S <= T
    requires forall x :: x in S ==> x.parent == old(x.parent) && x.id == old(x.id) && x.count >= old(x.count)
    requires forall x :: x in S && old(x.id) != id ==> x.count == old(x.count)
    requires forall x :: x in S && x != c ==> x.itemlist == old(x.itemlist)
    requires forall x :: x in T - S ==> !x.isContainer
    ensures KeptBut(old(Faces(S)), Faces(T), c, id)
  {
  }

  /** The inner loop of `addMoney`. */
  method AddCoins(types: Types, c: Item, id: nat, currencyCoins: nat, flags: Flags, ghost S: set<Item>)
    returns (ground: seq<Stack>, ghost T: set<Item>)
    requires TypesOk(types) && Forest(types, S) && WellStocked(types, S) && c in S && c.isContainer
    requires types(id).stackable && !flags.noLimit && !flags.childIsOwner
    modifies S
    ensures S <= T && fresh(T - S) && Forest(types, T) && WellStocked(types, T)
    ensures KeptBut(old(Faces(S)), Faces(T), c, id) && Grew(old(Stock(S)), Stock(T), ground, id, currencyCoins)
    ensures Handed(types, old(Stock(S))[c], Stock(T)[c], ground, c.maxSize, Rolls(id, currencyCoins),
                   !flags.ignoreAutoStack)
  {
    hide Forest, WellStocked, KeptBut, Grew, Stock, Faces, TypesOk, Rolls, Handed, StillToHand, Tried;
    ghost var faces, stock := Faces(S), Stock(S);
    ground, T := [], S;
    var left := currencyCoins;
    ghost var auto := !flags.ignoreAutoStack;
    NothingGrew(faces, stock, c, id);
    NoneHanded(types, stock[c], c.maxSize, Rolls(id, left), auto);
    while left > 0
      invariant S <= T && fresh(T - S) && Forest(types, T) && WellStocked(types, T) && 0 <= left <= currencyCoins
      invariant KeptBut(faces, Faces(T), c, id) && Grew(stock, Stock(T), ground, id, currencyCoins - left)
      invariant StillToHand(types, stock[c], Stock(T)[c], ground, c.maxSize, Rolls(id, currencyCoins), Rolls(id, left), auto)
    {
      var count := Least(left);
      ghost var middle, held := Faces(T), Stock(T);
      var more;
      more, T := AddStack(types, c, id, count, flags, T);
      KeptTwice(faces, middle, Faces(T), c, id);
      GrewTwice(stock, held, Stock(T), ground, more, id, currencyCoins - left, count);
      OneMoreRoll(types, stock[c], held[c], Stock(T)[c], ground, more, c.maxSize, id, currencyCoins, left, auto);
      ground := ground + more;
      left := left - count;
    }
    assert currencyCoins - left == currencyCoins;
    AllHanded(types, stock[c], Stock(T)[c], ground, c.maxSize, id, currencyCoins, auto);
  }

  /** Of the stacks `xs`, those in `after` were received by the content `s` and those in `ground` were refused. */
  ghost predicate Handed(types: Types, s: seq<Stack>, after: seq<Stack>, ground: seq<Stack>, size: nat, xs: seq<Stack>,
                         auto: bool) {
    after == Received(types, s, size, xs, auto) && ground == Refused(types, s, size, xs, auto)
  }

  /** The same, as long as the stacks `rest` are still to be handed out. */
  ghost predicate StillToHand(types: Types, s: seq<Stack>, now: seq<Stack>, ground: seq<Stack>, size: nat, xs: seq<Stack>,
                              rest: seq<Stack>, auto: bool) {
    && Received(types, s, size, xs, auto) == Received(types, now, size, rest, auto)
    && Refused(types, s, size, xs, auto) == ground + Refused(types, now, size, rest, auto)
  }

  lemma {:induction false} NoneHanded(types: Types, s: seq<Stack>, size: nat, xs: seq<Stack>, auto: bool)
    ensures StillToHand(types, s, s, [], size, xs, xs, auto)
  {
  }

  lemma {:induction false} AllHanded(types: Types, s: seq<Stack>, now: seq<Stack>, ground: seq<Stack>, size: nat, id: nat,
                                     n: nat, auto: bool)
    requires StillToHand(types, s, now, ground, size, Rolls(id, n), Rolls(id, 0), auto)
    ensures Handed(types, s, now, ground, size, Rolls(id, n), auto)
  {
  }

  /** One stack more is handed out. */
  lemma {:induction false} OneMoreHanded(types: Types, s: seq<Stack>, now: seq<Stack>, afterwards: seq<Stack>,
                                         ground: seq<Stack>, more: seq<Stack>, size: nat, xs: seq<Stack>, x: Stack,
                                         rest: seq<Stack>, auto: bool)
    requires StillToHand(types, s, now, ground, size, xs, [x] + rest, auto)
    requires Tried(types, now, afterwards, more, size, x, auto)
    ensures StillToHand(types, s, afterwards, ground + more, size, xs, rest, auto)
  {
    hide FitsIn, Stowed;
    assert ([x] + rest)[0] == x && ([x] + rest)[1..] == rest;
  }

  lemma {:induction false} OneMoreRoll(types: Types, s: seq<Stack>, now: seq<Stack>, afterwards: seq<Stack>,
                                       ground: seq<Stack>, more: seq<Stack>, size: nat, id: nat, coins: nat, left: nat,
                                       auto: bool)
    requires left > 0 && StillToHand(types, s, now, ground, size, Rolls(id, coins), Rolls(id, left), auto)
    requires Tried(types, now, afterwards, more, size, Stack(id, Least(left), map[]), auto)
    ensures StillToHand(types, s, afterwards, ground + more, size, Rolls(id, coins), Rolls(id, left - Least(left)), auto)
  {
    hide Tried, StillToHand;
    var x := Stack(id, Least(left), map[]);
    assert Rolls(id, left) == [x] + Rolls(id, left - Least(left));
    OneMoreHanded(types, s, now, afterwards, ground, more, size, Rolls(id, coins), x, Rolls(id, left - Least(left)), auto);
  }

  lemma {:induction false} NothingGrew(faces: map<Item, Face>, stock: map<Item, seq<Stack>>, c: Item, id: nat)
    ensures KeptBut(faces, faces, c, id) && Grew(stock, stock, [], id, 0)
  {
  }

  /** By any worth `g`, the forest and the ground have what the currencies before `i` hand out in addition. */
  ghost predicate Changed(before: map<Item, seq<Stack>>, after: map<Item, seq<Stack>>, ground: seq<Stack>, cs: Currencies,
                          i: nat, money: nat, amount: nat)
    requires i <= |cs| && forall j :: 0 <= j < |cs| ==> cs[j].0 > 0
  {
    forall g: WorthOf :: StockWorth(g, after) + ContentWorth(g, ground) + GivenFrom(g, cs, i, money) ==
      StockWorth(g, before) + Given(g, cs, amount)
  }

  lemma {:induction false} ChangedMore(a: map<Item, seq<Stack>>, b: map<Item, seq<Stack>>, e: map<Item, seq<Stack>>,
                                       s: seq<Stack>, t: seq<Stack>, cs: Currencies, i: nat, money: nat, amount: nat)
    requires i < |cs| && (forall j :: 0 <= j < |cs| ==> cs[j].0 > 0) && Changed(a, b, s, cs, i, money, amount)
    requires Grew(b, e, t, cs[i].1, money / cs[i].0)
    ensures Changed(a, e, s + t, cs, i + 1, money % cs[i].0, amount)
  {
    hide StockWorth, ContentWorth, Given, GivenFrom;
    HandOut(cs, i, money);
    Divided(money, cs[i].0);
    forall g: WorthOf
      ensures StockWorth(g, e) + ContentWorth(g, s + t) + GivenFrom(g, cs, i + 1, money % cs[i].0) ==
        StockWorth(g, a) + Given(g, cs, amount)
    {
      WorthJoined(g, s, t);
    }
  }

  lemma {:induction false} NothingChanged(stock: map<Item, seq<Stack>>, w: WorthOf, faces: map<Item, Face>, c: Item,
                                          cs: Currencies, amount: nat)
    requires forall j :: 0 <= j < |cs| ==> cs[j].0 > 0
    ensures Changed(stock, stock, [], cs, 0, amount, amount) && KeptAbove(w, faces, faces, c, amount)
  {
    hide StockWorth, Given;
    forall g: WorthOf
      ensures StockWorth(g, stock) + ContentWorth(g, []) + GivenFrom(g, cs, 0, amount) ==
        StockWorth(g, stock) + Given(g, cs, amount)
    {
      GivenSteps(g, cs, amount);
    }
  }

  /** What greedy change adds: exactly its coins by any worth, and by their own worth the amount but for what no coin
    pays. */
  ghost predicate Paid(w: WorthOf, before: map<Item, seq<Stack>>, after: map<Item, seq<Stack>>, ground: seq<Stack>,
                       cs: Currencies, amount: nat, lost: nat)
    requires forall j :: 0 <= j < |cs| ==> cs[j].0 > 0
  {
    && (forall g: WorthOf ::
          StockWorth(g, after) + ContentWorth(g, ground) == StockWorth(g, before) + Given(g, cs, amount))
    && StockWorth(w, after) + ContentWorth(w, ground) + lost == StockWorth(w, before) + amount
  }

  lemma {:induction false} AllPaid(w: WorthOf, before: map<Item, seq<Stack>>, after: map<Item, seq<Stack>>,
                                   ground: seq<Stack>, cs: Currencies, money: nat, amount: nat)
    requires ValidCurrencies(w, cs) && Changed(before, after, ground, cs, |cs|, money, amount)
    ensures Paid(w, before, after, ground, cs, amount, Leftover(cs, amount))
  {
    hide StockWorth, ContentWorth, Given, Leftover;
    forall g: WorthOf
      ensures StockWorth(g, after) + ContentWorth(g, ground) == StockWorth(g, before) + Given(g, cs, amount)
    {
      GivenSteps(g, cs, money);
    }
    GivenIsPaid(w, cs, amount);
  }

  /** `Game::addMoney`: coins of every currency in turn, in stacks of up to a hundred. */
  method AddMoney(types: Types, ghost w: WorthOf, currencies: Currencies, c: Item, amount: nat, flags: Flags,
                  ghost S: set<Item>)
    returns (ground: seq<Stack>, ghost T: set<Item>)
    requires TypesOk(types) && Forest(types, S) && WellStocked(types, S) && c in S && c.isContainer
    requires ValidCurrencies(w, currencies) && forall i :: 0 <= i < |currencies| ==> types(currencies[i].1).stackable
    requires !flags.noLimit && !flags.childIsOwner
    modifies S
    ensures S <= T && fresh(T - S) && Forest(types, T) && WellStocked(types, T)
    ensures KeptAbove(w, old(Faces(S)), Faces(T), c, amount)
    ensures Paid(w, old(Stock(S)), Stock(T), ground, currencies, amount, Leftover(currencies, amount))
    ensures Handed(types, old(Stock(S))[c], Stock(T)[c], ground, c.maxSize, AllRolls(currencies, amount),
                   !flags.ignoreAutoStack)
    ensures AllPickupable(types, currencies) && |old(Stock(S))[c]| + |AllRolls(currencies, amount)| <= c.maxSize ==>
      ground == []
    ensures forall x :: x in ground ==> !FitsIn(types, Stock(T)[c], c.maxSize, x, !flags.ignoreAutoStack)
  {
    hide Forest, WellStocked, KeptAbove, KeptBut, Grew, Stock, Faces, TypesOk, Changed, Paid, Leftover, Given, Handed,
         StillToHand, AllRolls, Rolls, FitsIn;
    ghost var faces, stock, auto := Faces(S), Stock(S), !flags.ignoreAutoStack;
    ground, T := [], S;
    var money := amount;
    NothingChanged(stock, w, faces, c, currencies, amount);
    NoneHanded(types, stock[c], c.maxSize, AllRolls(currencies, amount), auto);
    if money == 0 {
      NothingPaid(w, stock, currencies);
      NothingToHand(types, stock[c], c.maxSize, currencies, auto);
      return;
    }
    assert currencies[0..] == currencies;
    for i := 0 to |currencies|
      invariant S <= T && fresh(T - S) && Forest(types, T) && WellStocked(types, T) && 0 <= money <= amount
      invariant KeptAbove(w, faces, Faces(T), c, amount)
      invariant Changed(stock, Stock(T), ground, currencies, i, money, amount)
      invariant StillToHand(types, stock[c], Stock(T)[c], ground, c.maxSize, AllRolls(currencies, amount),
                            AllRolls(currencies[i..], money), auto)
    {
      RollsFrom(currencies, i, money);
      var (worth, id) := currencies[i];
      var currencyCoins := money / worth;
      Divided(money, worth);
      if currencyCoins <= 0 {
        NoneChanged(stock, Stock(T), ground, currencies, i, money, amount);
        continue;
      }
      ghost var middle, held := Faces(T), Stock(T);
      var more;
      more, T := AddCoins(types, c, id, currencyCoins, flags, T);
      KeptFurther(w, faces, middle, Faces(T), c, id, amount);
      ChangedMore(stock, held, Stock(T), ground, more, currencies, i, money, amount);
      MoreHanded(types, stock[c], held[c], Stock(T)[c], ground, more, c.maxSize, AllRolls(currencies, amount),
                 Rolls(id, currencyCoins), AllRolls(currencies[i + 1..], money % worth), auto);
      ground := ground + more;
      money := money - currencyCoins * worth;
    }
    AllPaid(w, stock, Stock(T), ground, currencies, money, amount);
    ChangeHanded(types, stock[c], Stock(T)[c], ground, c.maxSize, currencies, amount, money, auto);
  }

  predicate AllPickupable(types: Types, cs: Currencies) {
    forall i :: 0 <= i < |cs| ==> types(cs[i].1).pickupable
  }

  lemma {:induction false} RollsFrom(cs: Currencies, i: nat, money: nat)
    requires i < |cs| && forall j :: 0 <= j < |cs| ==> cs[j].0 > 0
    ensures AllRolls(cs[i..], money) == Rolls(cs[i].1, money / cs[i].0) + AllRolls(cs[i + 1..], money % cs[i].0)
    ensures money / cs[i].0 == 0 ==> AllRolls(cs[i..], money) == AllRolls(cs[i + 1..], money)
  {
    assert cs[i..][1..] == cs[i + 1..];
    Divided(money, cs[i].0);
  }

  lemma {:induction false} HandedJoined(types: Types, s: seq<Stack>, size: nat, xs: seq<Stack>, ys: seq<Stack>,
                                        auto: bool)
    ensures Received(types, s, size, xs + ys, auto) == Received(types, Received(types, s, size, xs, auto), size, ys, auto)
    ensures Refused(types, s, size, xs + ys, auto) ==
      Refused(types, s, size, xs, auto) + Refused(types, Received(types, s, size, xs, auto), size, ys, auto)
    decreases |xs|
  {
    hide FitsIn, Stowed;
    if xs == [] {
      assert xs + ys == ys;
    } else {
      assert (xs + ys)[1..] == xs[1..] + ys;
      var t := if FitsIn(types, s, size, xs[0], auto) then Stowed(types, s, xs[0].(count := 0), xs[0].count, auto) else s;
      HandedJoined(types, t, size, xs[1..], ys, auto);
    }
  }

  /** The coins of one currency are handed out. */
  lemma {:induction false} MoreHanded(types: Types, s: seq<Stack>, now: seq<Stack>, afterwards: seq<Stack>,
                                      ground: seq<Stack>, more: seq<Stack>, size: nat, all: seq<Stack>, xs: seq<Stack>,
                                      rest: seq<Stack>, auto: bool)
    requires StillToHand(types, s, now, ground, size, all, xs + rest, auto)
    requires Handed(types, now, afterwards, more, size, xs, auto)
    ensures StillToHand(types, s, afterwards, ground + more, size, all, rest, auto)
  {
    HandedJoined(types, now, size, xs, rest, auto);
    hide Received, Refused;
  }

  lemma {:induction false} AllRollsAreCoins(types: Types, cs: Currencies, money: nat)
    requires TypesOk(types) && forall i :: 0 <= i < |cs| ==> cs[i].0 > 0 && types(cs[i].1).stackable
    ensures CoinStacks(types, AllRolls(cs, money))
    ensures AllPickupable(types, cs) ==> forall x :: x in AllRolls(cs, money) ==> types(x.id).pickupable
  {
    if cs != [] {
      var xs := Rolls(cs[0].1, money / cs[0].0);
      RollsAreFew(cs[0].1, money / cs[0].0);
      assert forall i :: 0 <= i < |xs| ==> xs[i] in xs;
      AllRollsAreCoins(types, cs[1..], money % cs[0].0);
    }
  }

  /** What is on the ground in the end does not fit into the container, and nothing is if there is a free slot for every
    stack. */
  lemma {:induction false} ChangeHanded(types: Types, s: seq<Stack>, now: seq<Stack>, ground: seq<Stack>, size: nat,
                                        cs: Currencies, amount: nat, money: nat, auto: bool)
    requires TypesOk(types) && forall i :: 0 <= i < |cs| ==> cs[i].0 > 0 && types(cs[i].1).stackable
    requires StillToHand(types, s, now, ground, size, AllRolls(cs, amount), AllRolls(cs[|cs|..], money), auto)
    ensures Handed(types, s, now, ground, size, AllRolls(cs, amount), auto)
    ensures AllPickupable(types, cs) && |s| + |AllRolls(cs, amount)| <= size ==> ground == []
    ensures forall x :: x in ground ==> !FitsIn(types, now, size, x, auto)
  {
    hide FitsIn;
    var xs := AllRolls(cs, amount);
    AllRollsAreCoins(types, cs, amount);
    RefusedDoesNotFit(types, s, size, xs, auto);
    if AllPickupable(types, cs) && |s| + |xs| <= size {
      assert forall i :: 0 <= i < |xs| ==> xs[i] in xs;
      NothingIsRefused(types, s, size, xs, auto);
    }
  }

  lemma {:induction false} NothingToHand(types: Types, s: seq<Stack>, size: nat, cs: Currencies, auto: bool)
    requires forall i :: 0 <= i < |cs| ==> cs[i].0 > 0
    ensures Handed(types, s, s, [], size, AllRolls(cs, 0), auto)
  {
    NoRolls(cs);
  }

  lemma {:induction false} NoRolls(cs: Currencies)
    requires forall i :: 0 <= i < |cs| ==> cs[i].0 > 0
    ensures AllRolls(cs, 0) == []
  {
    if cs != [] { NoRolls(cs[1..]); }
  }

  lemma {:induction false} NothingPaid(w: WorthOf, stock: map<Item, seq<Stack>>, cs: Currencies)
    requires ValidCurrencies(w, cs)
    ensures Paid(w, stock, stock, [], cs, 0, Leftover(cs, 0))
  {
    hide StockWorth, Given;
    NothingLeftOfNothing(cs);
    forall g: WorthOf
      ensures Given(g, cs, 0) == 0
    {
      NothingGiven(g, cs);
    }
  }

  lemma {:induction false} NoneChanged(a: map<Item, seq<Stack>>, b: map<Item, seq<Stack>>, s: seq<Stack>, cs: Currencies,
                                       i: nat, money: nat, amount: nat)
    requires i < |cs| && (forall j :: 0 <= j < |cs| ==> cs[j].0 > 0) && Changed(a, b, s, cs, i, money, amount)
    requires money / cs[i].0 <= 0
    ensures Changed(a, b, s, cs, i + 1, money, amount)
  {
    hide StockWorth, ContentWorth, Given, GivenFrom;
    HandOut(cs, i, money);
  }

  // ---- the order of payment ---------------------------------------------------------------------

  /** An entry of the multimap from worth to item. */
  datatype Entry = Entry(worth: nat, item: Item)

  type Entries = seq<Entry>

  ghost predicate Ascending(m: Entries) {
    forall i, j :: 0 <= i < j < |m| ==> m[i].worth <= m[j].worth
  }

  ghost predicate DistinctItems(m: Entries) {
    forall i, j :: 0 <= i < j < |m| ==> m[i].item != m[j].item
  }

  function EntrySum(m: Entries): nat {
    if m == [] then 0 else m[0].worth + EntrySum(m[1..])
  }

  /** `multimap::emplace`: behind all entries that are not worth more. */
  function Emplaced(m: Entries, e: Entry): Entries {
    if m == [] || m[0].worth > e.worth then [e] + m else [m[0]] + Emplaced(m[1..], e)
  }

  lemma {:induction false} EmplacedHas(m: Entries, e: Entry, x: Entry)
    ensures x in Emplaced(m, e) <==> x in m || x == e
  {
    if !(m == [] || m[0].worth > e.worth) {
      assert m == [m[0]] + m[1..];
      EmplacedHas(m[1..], e, x);
    }
  }

  lemma {:induction false} EmplacedKeeps(m: Entries, e: Entry)
    requires Ascending(m)
    ensures Ascending(Emplaced(m, e)) && EntrySum(Emplaced(m, e)) == EntrySum(m) + e.worth
  {
    if m == [] || m[0].worth > e.worth {
      assert ([e] + m)[1..] == m;
    } else {
      var t := Emplaced(m[1..], e);
      EmplacedKeeps(m[1..], e);
      assert Emplaced(m, e) == [m[0]] + t && ([m[0]] + t)[1..] == t;
      forall j | 0 <= j < |t|
        ensures m[0].worth <= t[j].worth
      {
        EmplacedHas(m[1..], e, t[j]);
      }
      hide Emplaced;
    }
  }

  lemma {:induction false} EmplacedDistinct(m: Entries, e: Entry)
    requires DistinctItems(m) && forall x :: x in m ==> x.item != e.item
    ensures DistinctItems(Emplaced(m, e))
  {
    if !(m == [] || m[0].worth > e.worth) {
      var t := Emplaced(m[1..], e);
      EmplacedDistinct(m[1..], e);
      assert Emplaced(m, e) == [m[0]] + t;
      forall j | 0 <= j < |t|
        ensures m[0].item != t[j].item
      {
        EmplacedHas(m[1..], e, t[j]);
      }
      hide Emplaced;
    }
  }

  lemma {:induction false} EntryStep(m: Entries, i: nat)
    requires i < |m|
    ensures EntrySum(m[..i + 1]) == EntrySum(m[..i]) + m[i].worth
    ensures Items(m[..i + 1]) == Items(m[..i]) + {m[i].item}
  {
    assert m[..i + 1] == m[..i] + [m[i]];
    EntrySumJoined(m[..i], m[i]);
  }

  lemma {:induction false} EntrySumJoined(m: Entries, e: Entry)
    ensures EntrySum(m + [e]) == EntrySum(m) + e.worth
  {
    if m == [] {
      assert [] + [e] == [e] && [e][1..] == [];
    } else {
      assert (m + [e])[1..] == m[1..] + [e];
      EntrySumJoined(m[1..], e);
    }
  }

  function Items(m: Entries): set<Item> {
    set e | e in m :: e.item
  }

  // ---- collecting -------------------------------------------------------------------------------

  function Boxes(s: seq<Item>): seq<Item> {
    if s == [] then [] else Boxes(s[..|s| - 1]) + (if s[|s| - 1].isContainer then [s[|s| - 1]] else [])
  }

  function Coins(s: seq<Item>): seq<Item> {
    if s == [] then [] else Coins(s[..|s| - 1]) + (if s[|s| - 1].isContainer then [] else [s[|s| - 1]])
  }

  ghost predicate DistinctAll(s: seq<Item>) {
    forall i, j :: 0 <= i < j < |s| ==> s[i] != s[j]
  }

  lemma {:induction false} SplitUp(s: seq<Item>)
    requires DistinctAll(s)
    ensures DistinctAll(Boxes(s)) && DistinctAll(Coins(s))
    ensures forall i :: 0 <= i < |Boxes(s)| ==> Boxes(s)[i] in s && Boxes(s)[i].isContainer
    ensures forall i :: 0 <= i < |Coins(s)| ==> Coins(s)[i] in s && !Coins(s)[i].isContainer
    ensures forall x :: x in s ==> if x.isContainer then x in Boxes(s) else x in Coins(s)
  {
    if s != [] {
      var last := |s| - 1;
      assert s == s[..last] + [s[last]];
      SplitUp(s[..last]);
    }
  }

  /** The worth of one item, `Item::getWorth`. */
  function Worth(w: WorthOf, x: Item): nat
    reads x
  {
    w(x.id) * x.count
  }

  /** The entries are the items of `coins` that are money, by worth. */
  ghost predicate Collected(w: WorthOf, coins: seq<Item>, m: Entries)
    reads coins
  {
    && Ascending(m) && DistinctItems(m) && EntrySum(m) == ContentWorth(w, Content(coins))
    && (forall e :: e in m ==> e.item in coins && e.worth == Worth(w, e.item) && 0 < e.worth)
    && (forall x :: x in coins && 0 < Worth(w, x) ==> Entry(Worth(w, x), x) in m)
    && m == Listing(w, coins)
  }

  /** The items that are money, each put behind all that are not worth more. */
  ghost function Listing(w: WorthOf, coins: seq<Item>): Entries
    reads coins
    decreases |coins|
  {
    if coins == [] then [] else
      var x, m := coins[|coins| - 1], Listing(w, coins[..|coins| - 1]);
      if Worth(w, x) != 0 then Emplaced(m, Entry(Worth(w, x), x)) else m
  }

  /** The entries of one worth, in order. */
  function OfWorth(m: Entries, v: nat): Entries {
    if m == [] then [] else (if m[0].worth == v then [m[0]] else []) + OfWorth(m[1..], v)
  }

  lemma {:induction false} EmplacedLast(m: Entries, e: Entry, v: nat)
    requires Ascending(m)
    ensures OfWorth(Emplaced(m, e), v) == OfWorth(m, v) + if e.worth == v then [e] else []
  {
    if m == [] || m[0].worth > e.worth {
      assert ([e] + m)[1..] == m;
      if e.worth == v { NoneOfWorth(m, v); }
    } else {
      assert ([m[0]] + Emplaced(m[1..], e))[1..] == Emplaced(m[1..], e);
      EmplacedLast(m[1..], e, v);
    }
  }

  lemma {:induction false} NoneOfWorth(m: Entries, v: nat)
    requires Ascending(m) && (m != [] ==> m[0].worth > v)
    ensures OfWorth(m, v) == []
  {
    if m != [] {
      assert |m| > 1 ==> m[1].worth >= m[0].worth;
      NoneOfWorth(m[1..], v);
    }
  }

  /** The items of one worth, in the order in which they were found. */
  ghost function FoundOfWorth(w: WorthOf, coins: seq<Item>, v: nat): Entries
    reads coins
    decreases |coins|
  {
    if coins == [] then [] else
      var x := coins[|coins| - 1];
      FoundOfWorth(w, coins[..|coins| - 1], v) + if Worth(w, x) == v then [Entry(v, x)] else []
  }

  /** Stacks of equal worth are listed, and so spent, in the order in which they are found. */
  lemma {:induction false} FirstFoundFirst(w: WorthOf, coins: seq<Item>, v: nat)
    requires 0 < v
    ensures Ascending(Listing(w, coins)) && OfWorth(Listing(w, coins), v) == FoundOfWorth(w, coins, v)
    decreases |coins|
  {
    if coins != [] {
      var x, m := coins[|coins| - 1], Listing(w, coins[..|coins| - 1]);
      FirstFoundFirst(w, coins[..|coins| - 1], v);
      if Worth(w, x) != 0 {
        EmplacedKeeps(m, Entry(Worth(w, x), x));
        EmplacedLast(m, Entry(Worth(w, x), x), v);
      }
    }
  }

  lemma {:induction false} CollectedMore(w: WorthOf, coins: seq<Item>, x: Item, m: Entries)
    requires Collected(w, coins, m) && x !in coins
    ensures Collected(w, coins + [x], if Worth(w, x) != 0 then Emplaced(m, Entry(Worth(w, x), x)) else m)
  {
    hide Ascending, DistinctItems, EntrySum, Emplaced;
    assert (coins + [x])[..|coins|] == coins;
    assert Content(coins + [x]) == Content(coins) + [StackOf(x)];
    WorthJoined(w, Content(coins), [StackOf(x)]);
    assert ContentWorth(w, [StackOf(x)]) == Worth(w, x) by { assert [StackOf(x)][1..] == []; }
    hide ContentWorth, Content;
    if Worth(w, x) != 0 {
      var e := Entry(Worth(w, x), x);
      EmplacedKeeps(m, e);
      EmplacedDistinct(m, e);
      forall y { EmplacedHas(m, e, y); }
    }
  }

  /** The loop of `removeMoney` over the children of one container: containers are noted, money is listed. */
  method ScanContainer(w: WorthOf, container: Item, containers0: seq<Item>, moneyMap0: Entries, moneyCount0: nat,
                       ghost coins: seq<Item>)
    returns (containers: seq<Item>, moneyMap: Entries, moneyCount: nat)
    requires Collected(w, coins, moneyMap0) && moneyCount0 == EntrySum(moneyMap0)
    requires DistinctAll(container.itemlist) && forall x :: x in container.itemlist ==> x !in coins
    ensures containers == containers0 + Boxes(container.itemlist)
    ensures Collected(w, coins + Coins(container.itemlist), moneyMap) && moneyCount == EntrySum(moneyMap)
  {
    hide Collected, EntrySum, Emplaced, Boxes, Coins, DistinctAll;
    containers, moneyMap, moneyCount := containers0, moneyMap0, moneyCount0;
    var s := container.itemlist;
    NothingSplit(s, coins, containers0);
    for i := 0 to |s|
      invariant containers == containers0 + Boxes(s[..i])
      invariant Collected(w, coins + Coins(s[..i]), moneyMap) && moneyCount == EntrySum(moneyMap)
    {
      var item := s[i];
      SplitStep(s, i);
      if item.isContainer {
        containers := containers + [item];
      } else {
        NewCoin(s, i, coins);
        CollectedMore(w, coins + Coins(s[..i]), item, moneyMap);
        assert coins + Coins(s[..i]) + [item] == coins + Coins(s[..i + 1]);
        var worth := Worth(w, item);
        if worth != 0 {
          MoneyGrows(w, coins + Coins(s[..i]), moneyMap, Entry(worth, item));
          moneyCount := moneyCount + worth;
          moneyMap := Emplaced(moneyMap, Entry(worth, item));
        }
      }
    }
    assert s[..|s|] == s;
  }

  lemma {:induction false} NothingSplit(s: seq<Item>, coins: seq<Item>, containers: seq<Item>)
    ensures coins + Coins(s[..0]) == coins && containers + Boxes(s[..0]) == containers
  {
  }

  lemma {:induction false} SplitStep(s: seq<Item>, i: nat)
    requires i < |s|
    ensures Boxes(s[..i + 1]) == if s[i].isContainer then Boxes(s[..i]) + [s[i]] else Boxes(s[..i])
    ensures Coins(s[..i + 1]) == if s[i].isContainer then Coins(s[..i]) else Coins(s[..i]) + [s[i]]
  {
    assert s[..i + 1][..i] == s[..i] && s[..i + 1][i] == s[i];
  }

  lemma {:induction false} NewCoin(s: seq<Item>, i: nat, coins: seq<Item>)
    requires DistinctAll(s) && i < |s| && forall x :: x in s ==> x !in coins
    ensures s[i] !in coins + Coins(s[..i])
  {
    SplitUp(s[..i]);
  }

  lemma {:induction false} MoneyGrows(w: WorthOf, coins: seq<Item>, m: Entries, e: Entry)
    requires Collected(w, coins, m)
    ensures EntrySum(Emplaced(m, e)) == EntrySum(m) + e.worth
  {
    EmplacedKeeps(m, e);
  }

  /** The containers at or below `c`. */
  ghost function Below(S: set<Item>, c: Item): set<Item>
    reads S
  {
    set y | y in S && y.isContainer && c in y.path
  }

  /** What the containers hold directly, without further containers. */
  ghost function CoinStock(done: set<Item>): (r: map<Item, seq<Stack>>)
    reads *
    ensures r.Keys == done
  {
    map p | p in done :: Content(Coins(p.itemlist))
  }

  /** The money that a container holds at any depth. */
  ghost function Carried(w: WorthOf, S: set<Item>, c: Item): nat
    reads *
  {
    StockWorth(w, CoinStock(Below(S, c)))
  }

  /** The entries are all the money that lies in the containers `K`, each item once, in order of worth. */
  ghost predicate Listed(w: WorthOf, faces: map<Item, Face>, K: set<Item>, m: Entries) {
    && Ascending(m) && DistinctItems(m)
    && (forall e :: e in m ==>
          && e.item in faces && !e.item.isContainer && InOneOf(faces[e.item], K)
          && e.worth == FaceWorth(w, faces[e.item]) && 0 < e.worth)
    && (forall x :: x in faces && !x.isContainer && InOneOf(faces[x], K) && 0 < FaceWorth(w, faces[x]) ==>
          Entry(FaceWorth(w, faces[x]), x) in m)
  }

  predicate InOneOf(f: Face, K: set<Item>) {
    f.parent != null && f.parent in K
  }

  function FaceWorth(w: WorthOf, f: Face): nat {
    w(f.id) * f.count
  }

  ghost predicate LiesIn(x: Item, done: set<Item>)
    reads x`parent
  {
    x.parent != null && x.parent in done
  }

  /** The walk has scanned the containers `done`, and nothing else: the containers and other items in them are listed,
    each once. */
  ghost predicate Walked(w: WorthOf, S: set<Item>, c: Item, done: set<Item>, containers: seq<Item>, coins: seq<Item>)
    reads *
  {
    && done <= S && (forall y :: y in done ==> y.isContainer && c in y.path)
    && (forall y :: y in containers ==> y in S && y.isContainer && LiesIn(y, done))
    && (forall x :: x in coins ==> x in S && !x.isContainer && LiesIn(x, done))
    && (forall x :: x in S && LiesIn(x, done) ==> if x.isContainer then x in containers else x in coins)
    && DistinctAll(containers) && DistinctAll(coins)
    && ContentWorth(w, Content(coins)) == StockWorth(w, CoinStock(done))
  }

  lemma {:induction false} WalkStep(w: WorthOf, S: set<Item>, c: Item, done: set<Item>, containers: seq<Item>,
                                    coins: seq<Item>, p: Item)
    requires Linkage(S) && Walked(w, S, c, done, containers, coins)
    requires p in S && p !in done && p.isContainer && c in p.path
    ensures DistinctAll(p.itemlist) && forall x :: x in p.itemlist ==> x !in coins
    ensures Walked(w, S, c, done + {p}, containers + Boxes(p.itemlist), coins + Coins(p.itemlist))
  {
    hide ContentWorth, StockWorth, CoinStock, Content, Boxes, Coins;
    var boxes, leaves := Boxes(p.itemlist), Coins(p.itemlist);
    DistinctChildren(S, p);
    SplitUp(p.itemlist);
    ChildrenOf(S, p);
    WorthWalked(w, done, coins, p);
    hide Linkage;
    forall x | x in S
      ensures LiesIn(x, done + {p}) <==> LiesIn(x, done) || x.parent == p
      ensures x in boxes <==> x.isContainer && x.parent == p
      ensures x in leaves <==> !x.isContainer && x.parent == p
    {
    }
    DistinctJoined(containers, boxes);
    DistinctJoined(coins, leaves);
  }

  lemma {:induction false} DistinctChildren(S: set<Item>, p: Item)
    requires Linkage(S) && p in S
    ensures DistinctAll(p.itemlist)
  {
    assert p.Linked(S);
  }

  lemma {:induction false} DistinctJoined(s: seq<Item>, t: seq<Item>)
    requires DistinctAll(s) && DistinctAll(t) && forall x :: x in t ==> x !in s
    ensures DistinctAll(s + t)
  {
    assert forall i :: 0 <= i < |s| ==> s[i] in s;
    assert forall j :: 0 <= j < |t| ==> t[j] in t;
  }

  lemma {:induction false} ChildrenOf(S: set<Item>, p: Item)
    requires Linkage(S) && p in S
    ensures forall x :: x in p.itemlist <==> x in S && x.parent == p
  {
    assert p.Linked(S);
    forall x | x in S
      ensures x.parent == p ==> x in p.itemlist
    {
      assert x.Linked(S);
    }
  }

  lemma {:induction false} WorthWalked(w: WorthOf, done: set<Item>, coins: seq<Item>, p: Item)
    requires p !in done && ContentWorth(w, Content(coins)) == StockWorth(w, CoinStock(done))
    ensures ContentWorth(w, Content(coins + Coins(p.itemlist))) == StockWorth(w, CoinStock(done + {p}))
  {
    hide ContentWorth, StockWorth;
    assert Content(coins + Coins(p.itemlist)) == Content(coins) + Content(Coins(p.itemlist));
    WorthJoined(w, Content(coins), Content(Coins(p.itemlist)));
    StockWorthAt(w, CoinStock(done + {p}), p);
    assert CoinStock(done + {p}) - {p} == CoinStock(done);
  }

  lemma {:induction false} WalkBegins(w: WorthOf, S: set<Item>, c: Item)
    requires Linkage(S) && c in S
    ensures Walked(w, S, c, {}, [], []) && Collected(w, [], []) && c in c.path && EntrySum([]) == 0
  {
    assert c.Linked(S);
  }

  /** A noted container is not scanned yet, and lies below `c`. */
  lemma {:induction false} NextContainer(w: WorthOf, S: set<Item>, c: Item, containers: seq<Item>, coins: seq<Item>, i: nat)
    requires Linkage(S) && c in S && i < |containers|
    requires Walked(w, S, c, {c} + Elements(containers[..i]), containers, coins)
    ensures var p := containers[i];
      p in S && p.isContainer && c in p.path && p !in {c} + Elements(containers[..i])
  {
    hide ContentWorth, StockWorth, CoinStock, Content, Elements;
    var p := containers[i];
    NotScanned(containers, i);
    assert p in containers && p.Linked(S) && p.parent.Linked(S);
    if p == c {
      ChildrenOffPath(S, c.parent);
    }
  }

  lemma {:induction false} NotScanned(s: seq<Item>, i: nat)
    requires DistinctAll(s) && i < |s|
    ensures s[i] !in Elements(s[..i])
  {
  }

  function Elements(s: seq<Item>): set<Item> {
    set x | x in s
  }

  /** When all noted containers are scanned, these are all containers below `c`. */
  lemma {:induction false} WalkedIsBelow(w: WorthOf, S: set<Item>, c: Item, containers: seq<Item>, coins: seq<Item>, y: Item)
    requires Linkage(S) && c in S && Walked(w, S, c, {c} + Elements(containers), containers, coins)
    requires y in S && y.isContainer && c in y.path
    ensures y in {c} + Elements(containers)
    decreases |y.path|
  {
    assert y.Linked(S);
    if y != c {
      assert y.parent.Linked(S) && c in y.parent.path;
      WalkedIsBelow(w, S, c, containers, coins, y.parent);
    }
  }

  lemma {:induction false} WalkedAll(w: WorthOf, S: set<Item>, c: Item, containers: seq<Item>, coins: seq<Item>)
    requires Linkage(S) && c in S && c.isContainer && Walked(w, S, c, {c} + Elements(containers), containers, coins)
    ensures {c} + Elements(containers) == Below(S, c)
  {
    hide ContentWorth, StockWorth, Linkage;
    forall y | y in Below(S, c)
      ensures y in {c} + Elements(containers)
    {
      WalkedIsBelow(w, S, c, containers, coins, y);
    }
  }

  lemma {:induction false} AllWalked(w: WorthOf, S: set<Item>, c: Item, containers: seq<Item>, coins: seq<Item>, m: Entries)
    requires Linkage(S) && c in S && c.isContainer && Walked(w, S, c, {c} + Elements(containers), containers, coins)
    requires Collected(w, coins, m)
    ensures Listed(w, Faces(S), Below(S, c), m) && EntrySum(m) == Carried(w, S, c)
  {
    WalkedAll(w, S, c, containers, coins);
    ListedFromWalk(w, S, Below(S, c), c, containers, coins, m);
    WorthFromWalk(w, S, c, containers, coins, m);
    hide *;
  }

  lemma {:induction false} ListedFromWalk(w: WorthOf, S: set<Item>, done: set<Item>, c: Item, containers: seq<Item>,
                                          coins: seq<Item>, m: Entries)
    requires Walked(w, S, c, done, containers, coins) && Collected(w, coins, m)
    ensures Listed(w, Faces(S), done, m)
  {
    hide ContentWorth, StockWorth, EntrySum, Ascending, DistinctItems, Listing, Faces;
    forall e | e in m
      ensures e.item in Faces(S) && !e.item.isContainer && InOneOf(Faces(S)[e.item], done)
              && e.worth == FaceWorth(w, Faces(S)[e.item]) && 0 < e.worth
    {
      assert e.item in coins;
      FaceOf(S, e.item);
    }
    forall x | x in Faces(S) && !x.isContainer && InOneOf(Faces(S)[x], done) && 0 < FaceWorth(w, Faces(S)[x])
      ensures Entry(FaceWorth(w, Faces(S)[x]), x) in m
    {
      FaceOf(S, x);
      assert LiesIn(x, done) && x in coins;
    }
  }

  lemma {:induction false} WorthFromWalk(w: WorthOf, S: set<Item>, c: Item, containers: seq<Item>, coins: seq<Item>,
                                         m: Entries)
    requires Walked(w, S, c, Below(S, c), containers, coins) && Collected(w, coins, m)
    ensures EntrySum(m) == Carried(w, S, c)
  {
    hide ContentWorth, StockWorth, EntrySum, Ascending, DistinctItems, Listing, Below;
  }

  /** The first part of `removeMoney`: all money below the container, by worth, over a list of containers that grows. */
  method CollectMoney(w: WorthOf, c: Item, ghost S: set<Item>)
    returns (moneyMap: Entries, moneyCount: nat, ghost found: seq<Item>)
    requires Linkage(S) && c in S && c.isContainer
    ensures Listed(w, Faces(S), Below(S, c), moneyMap) && moneyCount == EntrySum(moneyMap) == Carried(w, S, c)
    ensures moneyMap == Listing(w, found) && exists boxes :: InTurn(c, boxes, boxes, found)
  {
    hide *;
    WalkBegins(w, S, c);
    WalkStep(w, S, c, {}, [], [], c);
    var containers;
    containers, moneyMap, moneyCount := ScanContainer(w, c, [], [], 0, []);
    ghost var coins := [] + Coins(c.itemlist);
    var i := 0;
    DoneMore(c, containers, 0);
    FirstTurn(c);
    while i < |containers|
      invariant i <= |containers| && Walked(w, S, c, {c} + Elements(containers[..i]), containers, coins)
      invariant Collected(w, coins, moneyMap) && moneyCount == EntrySum(moneyMap)
      invariant InTurn(c, containers, containers[..i], coins)
      decreases S - ({c} + Elements(containers[..i]))
    {
      var container := containers[i];
      ghost var before := containers;
      NextContainer(w, S, c, containers, coins, i);
      WalkStep(w, S, c, {c} + Elements(containers[..i]), containers, coins, container);
      containers, moneyMap, moneyCount := ScanContainer(w, container, containers, moneyMap, moneyCount, coins);
      NextTurn(c, before, i, coins);
      coins := coins + Coins(container.itemlist);
      DoneMore(c, before, i);
      i := i + 1;
    }
    assert containers[..i] == containers;
    AllWalked(w, S, c, containers, coins, moneyMap);
    ItsListing(w, coins, moneyMap);
    found := coins;
  }

  lemma {:induction false} ItsListing(w: WorthOf, coins: seq<Item>, m: Entries)
    requires Collected(w, coins, m)
    ensures m == Listing(w, coins)
  {
  }

  /** The containers among the children of some items, or the other children, in order. */
  ghost function AllOf(s: seq<Item>, boxes: bool): seq<Item>
    reads s
    decreases |s|
  {
    if s == [] then [] else
      var x := s[|s| - 1];
      AllOf(s[..|s| - 1], boxes) + if boxes then Boxes(x.itemlist) else Coins(x.itemlist)
  }

  /** The order in which a container is searched: its own children, and then those of each container found, in turn; the
    containers `done` were searched. */
  ghost predicate InTurn(c: Item, boxes: seq<Item>, done: seq<Item>, found: seq<Item>)
    reads c, done
  {
    boxes == Boxes(c.itemlist) + AllOf(done, true) && found == Coins(c.itemlist) + AllOf(done, false)
  }

  lemma {:induction false} FirstTurn(c: Item)
    ensures var boxes, found := [] + Boxes(c.itemlist), [] + Coins(c.itemlist); InTurn(c, boxes, boxes[..0], found)
  {
  }

  lemma {:induction false} NextTurn(c: Item, boxes: seq<Item>, i: nat, found: seq<Item>)
    requires i < |boxes| && InTurn(c, boxes, boxes[..i], found)
    ensures var more := boxes + Boxes(boxes[i].itemlist);
      more[..i + 1] == boxes[..i + 1] && InTurn(c, more, more[..i + 1], found + Coins(boxes[i].itemlist))
  {
    assert boxes[..i + 1][..i] == boxes[..i];
    var more := boxes + Boxes(boxes[i].itemlist);
    assert more[..i + 1] == boxes[..i + 1];
  }

  lemma {:induction false} DoneMore(c: Item, containers: seq<Item>, i: nat)
    ensures {} + {c} == {c} + Elements(containers[..0])
    ensures i < |containers| ==>
      {c} + Elements(containers[..i]) + {containers[i]} == {c} + Elements(containers[..i + 1])
  {
  }

  // ---- removing ---------------------------------------------------------------------------------

  /** The children that are left when some are gone. */
  function Dropped(s: seq<Item>, gone: set<Item>): seq<Item> {
    if s == [] then [] else (if s[0] in gone then [] else [s[0]]) + Dropped(s[1..], gone)
  }

  lemma {:induction false} DroppedOne(s: seq<Item>, k: nat)
    requires k < |s| && forall i, j :: 0 <= i < j < |s| ==> s[i] != s[j]
    ensures Dropped(s, {s[k]}) == s[..k] + s[k + 1..]
  {
    if k == 0 {
      assert s[k] !in s[1..];
      DroppedNone(s[1..], {}, s[k]);
      NothingDropped(s[1..]);
      assert {} + {s[k]} == {s[k]} && s[..k] + s[k + 1..] == s[1..];
    } else {
      assert s[1..][k - 1] == s[k] && s[..k] + s[k + 1..] == [s[0]] + (s[1..][..k - 1] + s[1..][k..]);
      DroppedOne(s[1..], k - 1);
    }
  }

  lemma {:induction false} NothingDropped(s: seq<Item>)
    ensures Dropped(s, {}) == s
  {
    if s != [] { NothingDropped(s[1..]); }
  }

  lemma {:induction false} DroppedNone(s: seq<Item>, gone: set<Item>, x: Item)
    requires x !in s
    ensures Dropped(s, gone + {x}) == Dropped(s, gone)
  {
    if s != [] {
      assert s[0] in s;
      DroppedNone(s[1..], gone, x);
    }
  }

  lemma {:induction false} DroppedTwice(s: seq<Item>, gone: set<Item>, x: Item)
    ensures Dropped(Dropped(s, gone), {x}) == Dropped(s, gone + {x})
  {
    if s != [] {
      DroppedTwice(s[1..], gone, x);
      var t := Dropped(s[1..], gone);
      if s[0] in gone {
        assert Dropped(s, gone) == t;
      } else {
        assert Dropped(s, gone) == [s[0]] + t && Dropped(s, gone)[1..] == t;
      }
    }
  }

  lemma {:induction false} DroppedIn(s: seq<Item>, gone: set<Item>)
    ensures |Dropped(s, gone)| <= |s|
    ensures forall y :: y in Dropped(s, gone) <==> y in s && y !in gone
  {
    if s != [] { DroppedIn(s[1..], gone); }
  }

  /** `n` of the item `x` are gone: a smaller stack is left in place, or it has left its container.  Nothing else moved
    or changed. */
  ghost predicate Removed(before: map<Item, Face>, after: map<Item, Face>, x: Item, n: nat) {
    && before.Keys == after.Keys && x in before && after[x].id == before[x].id
    && (forall y :: y in before && y != x ==>
          && after[y].parent == before[y].parent && after[y].id == before[y].id && after[y].count == before[y].count
          && after[y].attrs == before[y].attrs)
    && (forall y :: y in before && y != before[x].parent ==> after[y].list == before[y].list)
    && (forall y :: y in before && y == before[x].parent ==>
          after[y].list == if n < before[x].count then before[y].list else Dropped(before[y].list, {x}))
    && if n < before[x].count then after[x].parent == before[x].parent && after[x].count == before[x].count - n
       else after[x].parent == null && after[x].count == before[x].count
  }

  /** By any worth, the forest has `n` items of type `id` less. */
  ghost predicate Shrank(before: map<Item, seq<Stack>>, after: map<Item, seq<Stack>>, id: nat, n: nat) {
    forall g: WorthOf :: StockWorth(g, after) + g(id) * n == StockWorth(g, before)
  }

  lemma {:induction false} StackShrank(before: map<Item, seq<Stack>>, after: map<Item, seq<Stack>>, c: Item, k: nat,
                                       n: nat)
    requires c in before && before.Keys == after.Keys && forall x :: x in before && x != c ==> after[x] == before[x]
    requires k < |before[c]| && n <= before[c][k].count
    requires if n < before[c][k].count then after[c] == before[c][k := before[c][k].(count := before[c][k].count - n)]
             else after[c] == before[c][..k] + before[c][k + 1..]
    ensures Shrank(before, after, before[c][k].id, n)
  {
    hide StockWorth, ContentWorth;
    var x := before[c][k];
    forall g: WorthOf
      ensures StockWorth(g, after) + g(x.id) * n == StockWorth(g, before)
    {
      WorthChanged(g, before, after, c);
      if n < x.count {
        WorthUpdated(g, before[c], k, x.(count := x.count - n));
        Distribute(g(x.id), x.count - n, n);
      } else {
        WorthDropped(g, before[c], k);
      }
    }
  }

  /** `Game::internalRemoveItem`, where nothing forbids the item to be removed. */
  method InternalRemoveItem(types: Types, item: Item, count: nat, ghost S: set<Item>) returns (ret: ReturnValue)
    requires TypesOk(types) && Forest(types, S) && WellStocked(types, S) && item in S
    modifies S
    ensures Forest(types, S) && WellStocked(types, S)
    ensures ret == NoError <==>
      old(item.parent) != null && 0 < count && (types(old(item.id)).stackable ==> count <= old(item.count))
    ensures ret != NoError ==> unchanged(S)
    ensures ret == NoError ==>
      var n := if types(old(item.id)).stackable then count else old(item.count);
      Removed(old(Faces(S)), Faces(S), item, n) && Shrank(old(Stock(S)), Stock(S), old(item.id), n)
  {
    hide Forest, WellStocked, Removed, Shrank, Faces, Stock;
    var cylinder := item.parent;
    if cylinder == null { return NotPossible; }
    ParentFacts(types, S, item);
    ret := QueryRemove(types, cylinder, item, count, NO_FLAGS.(ignoreNotMoveable := true));
    if ret != NoError { return; }
    RemoveFrom(types, cylinder, item, count, S);
  }

  /** `Container::removeThing` in terms of faces and stocks. */
  method RemoveFrom(types: Types, c: Item, item: Item, count: nat, ghost S: set<Item>)
    requires TypesOk(types) && Forest(types, S) && WellStocked(types, S) && c in S && item in S
    requires item.parent == c && c.isContainer && item in c.itemlist
    requires 0 < count && (types(item.id).stackable ==> count <= item.count)
    modifies c`itemlist, item`parent, item`count, S`path, S`totalWeight
    ensures Forest(types, S) && WellStocked(types, S)
    ensures var n := if types(old(item.id)).stackable then count else old(item.count);
      Removed(old(Faces(S)), Faces(S), item, n) && Shrank(old(Stock(S)), Stock(S), old(item.id), n)
  {
    hide Forest, WellStocked, Content, Shrank, Count, Linkage, Stock, StackWorth, ContentWorth, Removed, Faces, Dropped;
    ghost var k := 0;
    OwnChildren(types, S, c);
    if types(item.id).stackable && count != item.count {
      k := ShrinkStack(types, c, item, count, S);
    } else {
      ghost var children := c.itemlist;
      k := TakeWhole(types, c, item, count, S);
      DroppedOne(children, k);
    }
    FacesMove(S, c, item, if types(item.id).stackable then count else old(item.count));
    ContentShrank(types, S, c, item, k, if types(item.id).stackable then count else item.count);
  }

  twostate lemma {:induction false} ContentShrank(new types: Types, new S: set<Item>, new c: Item, new item: Item,
                                                  new k: nat, new n: nat)
    requires old(allocated(types)) && old(allocated(S)) && old(allocated(c)) && old(allocated(item))
    requires c in S && item in S && k < |old(c.itemlist)| && old(c.itemlist)[k] == item && OthersKept(S, c)
    requires n <= old(item.count)
    requires var s := old(Content(c.itemlist));
      Content(c.itemlist) == if n < old(item.count) then s[k := old(StackOf(item)).(count := old(item.count) - n)]
                             else s[..k] + s[k + 1..]
    ensures Shrank(old(Stock(S)), Stock(S), old(item.id), n)
  {
    hide Shrank, Content, Stock;
    ContentsMove(types, S, c, item, k);
    StackShrank(old(Stock(S)), Stock(S), c, k, n);
  }

  lemma {:induction false} OwnChildren(types: Types, S: set<Item>, c: Item)
    requires Forest(types, S) && c in S
    ensures forall i, j :: 0 <= i < j < |c.itemlist| ==> c.itemlist[i] != c.itemlist[j]
    ensures forall x :: x in c.itemlist ==> x in S && x.parent == c
  {
    assert c.Linked(S);
  }

  twostate lemma {:induction false} FacesMove(new S: set<Item>, new c: Item, new item: Item, new n: nat)
    requires old(allocated(S)) && old(allocated(c)) && old(allocated(item))
    requires c in S && item in S && old(item.parent) == c && item.id == old(item.id)
    requires forall x :: x in S && x != item ==> x.parent == old(x.parent) && x.id == old(x.id) && x.count == old(x.count)
    requires forall x :: x in S ==> x.attrs == old(x.attrs)
    requires forall x :: x in S && x != c ==> x.itemlist == old(x.itemlist)
    requires c.itemlist == if n < old(item.count) then old(c.itemlist) else Dropped(old(c.itemlist), {item})
    requires if n < old(item.count) then item.parent == c && item.count == old(item.count) - n
             else item.parent == null && item.count == old(item.count)
    ensures Removed(old(Faces(S)), Faces(S), item, n)
  {
  }

  /** What became of the contents, in terms of stocks. */
  twostate lemma {:induction false} ContentsMove(new types: Types, new S: set<Item>, new c: Item, new item: Item,
                                                 new k: nat)
    requires old(allocated(types)) && old(allocated(S)) && old(allocated(c)) && old(allocated(item))
    requires c in S && item in S && k < |old(c.itemlist)| && old(c.itemlist)[k] == item && OthersKept(S, c)
    ensures var before, after := old(Stock(S)), Stock(S);
      && (forall x :: x in S && x != c ==> after[x] == before[x])
      && k < |before[c]| && before[c][k] == old(StackOf(item)) && before[c] == old(Content(c.itemlist))
      && after[c] == Content(c.itemlist)
  {
  }

  lemma {:induction false} ParentFacts(types: Types, S: set<Item>, x: Item)
    requires Forest(types, S) && x in S && x.parent != null
    ensures x.parent in S && x.parent.isContainer && x in x.parent.itemlist
    ensures forall k :: 0 <= k < |x.parent.itemlist| ==> Content(x.parent.itemlist)[k] == StackOf(x.parent.itemlist[k])
  {
    assert x.Linked(S);
  }

  // ---- paying -----------------------------------------------------------------------------------

  /** Nothing is money but what is stacked. */
  ghost predicate MoneyOk(types: Types, w: WorthOf, cs: Currencies) {
    && TypesOk(types) && ValidCurrencies(w, cs) && (forall id :: w(id) > 0 ==> types(id).stackable)
    && forall i :: 0 <= i < |cs| ==> types(cs[i].1).stackable
  }

  /** `n` of the stack `x` are gone: every item but `x` stays where it is, no stack but `x` shrinks, and no container but `c`
    and that of `x` changes. */
  ghost predicate Broken(before: map<Item, Face>, after: map<Item, Face>, c: Item, x: Item, n: nat) {
    && before.Keys <= after.Keys && x in before
    && (if n < before[x].count then after[x].parent == before[x].parent && after[x].count == before[x].count - n
        else after[x].parent == null)
    && (forall y :: y in before && y != x ==>
          after[y].parent == before[y].parent && after[y].id == before[y].id && after[y].count >= before[y].count)
    && (forall y :: y in before && y != c && y != before[x].parent ==> after[y].list == before[y].list)
  }

  lemma {:induction false} BrokenStack(w: WorthOf, a: map<Item, Face>, b: map<Item, Face>, e: map<Item, Face>, c: Item,
                                       x: Item, limit: nat, n: nat)
    requires KeptAbove(w, a, b, c, limit) && Removed(b, e, x, n) && x in a && b[x].count == a[x].count
    ensures Broken(a, e, c, x, n)
  {
  }

  /** The case of `removeMoney` where a stack is worth more than what is owed: change first, then the coins. */
  method Break(types: Types, w: WorthOf, currencies: Currencies, c: Item, item: Item, owed: nat, flags: Flags,
               ghost S: set<Item>)
    returns (ground: seq<Stack>, ghost lost: nat, ghost T: set<Item>)
    requires MoneyOk(types, w, currencies) && Forest(types, S) && WellStocked(types, S) && c in S && c.isContainer
    requires item in S && item.parent != null && 0 < owed < Worth(w, item) && !flags.noLimit && !flags.childIsOwner
    modifies S
    ensures S <= T && fresh(T - S) && Forest(types, T) && WellStocked(types, T)
    ensures Broken(old(Faces(S)), Faces(T), c, item, CoinsNeeded(w(old(item.id)), owed))
    ensures Exchanged(old(Stock(S)), Stock(T), ground, old(item.id), CoinsNeeded(w(old(item.id)), owed), currencies,
                      Overpaid(w(old(item.id)), owed))
    ensures ground == Refused(types, old(Stock(S))[c], c.maxSize, AllRolls(currencies, Overpaid(w(old(item.id)), owed)),
                              !flags.ignoreAutoStack)
    ensures StockWorth(w, Stock(T)) + ContentWorth(w, ground) + owed + lost == StockWorth(w, old(Stock(S)))
    ensures lost == Leftover(currencies, Overpaid(w(old(item.id)), owed))
    ensures HasUnitCoin(currencies) ==> lost == 0
  {
    hide Forest, WellStocked, KeptAbove, Removed, Broken, StockWorth, ContentWorth, Shrank, Stock, Faces, Leftover, Given,
         Paid, Overpaid, Exchanged, Handed, AllRolls, FitsIn;
    ghost var faces, stock := Faces(S), Stock(S);
    StackedMoney(types, w, currencies, S, item);
    FaceOf(S, item);
    var worth := Worth(w, item) / item.count;
    UnitWorth(w(item.id), item.count);
    var removeCount := CoinsNeeded(worth, owed);
    RoundedUp(owed, worth, item.count);
    var change := worth * removeCount - owed;
    ground, T := AddMoney(types, w, currencies, c, change, flags, S);
    lost := Leftover(currencies, change);
    if HasUnitCoin(currencies) { UnitCoinPaysAll(currencies, change); }
    StaysWhole(w, faces, T, c, item, change);
    FaceOf(T, item);
    ghost var middle, held := Faces(T), Stock(T);
    ghost var id := item.id;
    var ret := InternalRemoveItem(types, item, removeCount, T);
    BrokenStack(w, faces, middle, Faces(T), c, item, change, removeCount);
    CoinsSpent(w, currencies, stock, held, Stock(T), ground, id, removeCount, change, owed, lost);
    CoinsExchanged(w, currencies, stock, held, Stock(T), ground, id, removeCount, change, lost);
    ItsChange(types, stock[c], held[c], ground, c.maxSize, AllRolls(currencies, change), !flags.ignoreAutoStack);
  }

  /** How many coins of one worth cover what is owed. */
  function CoinsNeeded(unit: nat, owed: nat): nat {
    if unit == 0 then 0 else (owed + unit - 1) / unit
  }

  /** By any worth, `n` coins of type `id` were exchanged for greedy change. */
  ghost predicate Exchanged(before: map<Item, seq<Stack>>, after: map<Item, seq<Stack>>, ground: seq<Stack>, id: nat,
                            n: nat, cs: Currencies, change: nat)
    requires forall j :: 0 <= j < |cs| ==> cs[j].0 > 0
  {
    forall g: WorthOf :: StockWorth(g, after) + ContentWorth(g, ground) + g(id) * n ==
      StockWorth(g, before) + Given(g, cs, change)
  }

  lemma {:induction false} CoinsExchanged(w: WorthOf, cs: Currencies, a: map<Item, seq<Stack>>, b: map<Item, seq<Stack>>,
                                          e: map<Item, seq<Stack>>, ground: seq<Stack>, id: nat, n: nat, change: nat,
                                          lost: nat)
    requires ValidCurrencies(w, cs) && Paid(w, a, b, ground, cs, change, lost) && Shrank(b, e, id, n)
    ensures Exchanged(a, e, ground, id, n, cs, change)
  {
    hide StockWorth, ContentWorth, Given;
  }

  lemma {:induction false} ItsChange(types: Types, s: seq<Stack>, after: seq<Stack>, ground: seq<Stack>, size: nat,
                                     xs: seq<Stack>, auto: bool)
    requires Handed(types, s, after, ground, size, xs, auto)
    ensures ground == Refused(types, s, size, xs, auto)
  {
  }

  lemma {:induction false} StackedMoney(types: Types, w: WorthOf, cs: Currencies, S: set<Item>, x: Item)
    requires MoneyOk(types, w, cs) && WellStocked(types, S) && x in S && x.parent != null && 0 < Worth(w, x)
    ensures TypesOk(types) && types(x.id).stackable && 1 <= x.count <= MAX_STACK && 0 < w(x.id)
  {
    assert Stocked(types, x);
    BothCount(w(x.id), x.count);
  }

  lemma {:induction false} BothCount(a: nat, b: nat)
    requires 0 < a * b
    ensures 0 < a && 0 < b
  {
  }

  lemma {:induction false} OwnBelow(S: set<Item>, c: Item)
    requires Linkage(S) && c in S && c.isContainer
    ensures c in Below(S, c)
  {
    assert c.Linked(S);
  }

  lemma {:induction false} FaceOf(S: set<Item>, x: Item)
    requires x in S
    ensures Faces(S)[x] == Face(x.parent, x.id, x.count, x.attrs, x.itemlist)
  {
  }

  /** A stack of coins worth more than the change is still there, and as large. */
  lemma {:induction false} StaysWhole(w: WorthOf, before: map<Item, Face>, T: set<Item>, c: Item, x: Item, limit: nat)
    requires KeptAbove(w, before, Faces(T), c, limit) && x in before && w(before[x].id) > limit
    ensures x in T && x.parent == before[x].parent && x.id == before[x].id && x.count == before[x].count
  {
    assert Faces(T)[x].count == before[x].count;
  }

  /** Change and coins together make up what was owed. */
  lemma {:induction false} CoinsSpent(w: WorthOf, cs: Currencies, a: map<Item, seq<Stack>>, b: map<Item, seq<Stack>>,
                                      e: map<Item, seq<Stack>>, ground: seq<Stack>, id: nat, n: nat, change: nat,
                                      owed: nat, lost: nat)
    requires ValidCurrencies(w, cs) && Paid(w, a, b, ground, cs, change, lost) && Shrank(b, e, id, n)
    requires w(id) * n == owed + change
    ensures StockWorth(w, e) + ContentWorth(w, ground) + owed + lost == StockWorth(w, a)
  {
    hide StockWorth, ContentWorth, Given;
  }

  /** The items `gone` have left their containers, which are in `K`; nothing else moved or changed. */
  ghost predicate Untouched(before: map<Item, Face>, after: map<Item, Face>, gone: set<Item>, K: set<Item>) {
    && before.Keys == after.Keys
    && (forall y :: y in before && y !in gone ==>
          && after[y].parent == before[y].parent && after[y].id == before[y].id && after[y].count == before[y].count
          && after[y].attrs == before[y].attrs)
    && (forall y :: y in before && y in gone ==> after[y].parent == null)
    && (forall y :: y in before && y !in K ==> after[y].list == before[y].list)
  }

  /** The items `gone` have left their containers, and so have `n` of the stack `last`.  All else stays where it is, no
    other stack has shrunk, and no container outside `K` has changed. */
  ghost predicate Spent(before: map<Item, Face>, after: map<Item, Face>, gone: set<Item>, last: Item, n: nat,
                        K: set<Item>)
  {
    && before.Keys <= after.Keys && last in before
    && (if n < before[last].count
        then after[last].parent == before[last].parent && after[last].count == before[last].count - n
        else after[last].parent == null)
    && (forall y :: y in before && y !in gone && y != last ==>
          after[y].parent == before[y].parent && after[y].id == before[y].id && after[y].count >= before[y].count)
    && (forall y :: y in before && y in gone ==> after[y].parent == null)
    && (forall y :: y in before && y !in K ==> after[y].list == before[y].list)
  }

  lemma {:induction false} NextEntry(w: WorthOf, faces: map<Item, Face>, S: set<Item>, m: Entries, i: nat, K: set<Item>)
    requires i < |m| && Listed(w, faces, K, m) && Untouched(faces, Faces(S), Items(m[..i]), K)
    ensures var x := m[i].item;
      && x in S && x !in Items(m[..i]) && x.parent != null && x.parent in K && x.parent == faces[x].parent
      && Worth(w, x) == w(x.id) * x.count == m[i].worth && 0 < m[i].worth
      && x in faces && faces[x].id == x.id && faces[x].count == x.count && FaceWorth(w, faces[x]) == m[i].worth
  {
    var x := m[i].item;
    assert m[i] in m;
    assert x !in Items(m[..i]) by {
      forall j | 0 <= j < i
        ensures m[..i][j].item != x
      {
      }
    }
    FaceOf(S, x);
  }

  lemma {:induction false} OneMoreGone(before: map<Item, Face>, middle: map<Item, Face>, after: map<Item, Face>,
                                       gone: set<Item>, x: Item, n: nat, K: set<Item>)
    requires Untouched(before, middle, gone, K) && Removed(middle, after, x, n) && n == middle[x].count
    requires x !in gone && before[x].parent != null && before[x].parent in K
    ensures Untouched(before, after, gone + {x}, K)
  {
  }

  lemma {:induction false} LastGone(before: map<Item, Face>, after: map<Item, Face>, gone: set<Item>, x: Item,
                                    K: set<Item>)
    requires Untouched(before, after, gone + {x}, K) && x in before
    ensures Spent(before, after, gone, x, before[x].count, K) && after[x].parent == null
  {
  }

  lemma {:induction false} LastBroken(before: map<Item, Face>, middle: map<Item, Face>, after: map<Item, Face>,
                                      gone: set<Item>, c: Item, x: Item, n: nat, K: set<Item>)
    requires Untouched(before, middle, gone, K) && Broken(middle, after, c, x, n)
    requires x !in gone && c in K && before[x].parent != null && before[x].parent in K
    ensures Spent(before, after, gone, x, n, K)
  {
  }

  /** The children that `c` still has, and that they were children of `c` before. */
  ghost predicate Remaining(before: map<Item, Face>, after: map<Item, Face>, c: Item, gone: set<Item>) {
    && c in before && c in after && after[c].list == Dropped(before[c].list, gone)
    && forall x :: x in before[c].list ==> x in before && before[x].parent == c
  }

  lemma {:induction false} OneFewer(before: map<Item, Face>, middle: map<Item, Face>, after: map<Item, Face>, c: Item,
                                    gone: set<Item>, x: Item, n: nat, K: set<Item>)
    requires Remaining(before, middle, c, gone) && Untouched(before, middle, gone, K) && x !in gone
    requires Removed(middle, after, x, n) && n == middle[x].count && before[x].parent != null
    ensures Remaining(before, after, c, gone + {x})
  {
    DroppedTwice(before[c].list, gone, x);
    if before[x].parent != c { DroppedNone(before[c].list, gone, x); }
  }

  /** The contents of a container whose children have these faces. */
  ghost function ContentOf(faces: map<Item, Face>, s: seq<Item>): seq<Stack> {
    seq(|s|, i requires 0 <= i < |s| =>
      if s[i] in faces then Stack(faces[s[i]].id, faces[s[i]].count, faces[s[i]].attrs) else Stack(0, 0, map[]))
  }

  lemma {:induction false} ContentLeft(before: map<Item, Face>, S: set<Item>, c: Item, gone: set<Item>, K: set<Item>)
    requires c in S && Remaining(before, Faces(S), c, gone) && Untouched(before, Faces(S), gone, K)
    ensures Stock(S)[c] == ContentOf(before, Dropped(before[c].list, gone))
  {
    DroppedIn(before[c].list, gone);
    FaceOf(S, c);
    forall i | 0 <= i < |c.itemlist|
      ensures Content(c.itemlist)[i] == ContentOf(before, c.itemlist)[i]
    {
      assert c.itemlist[i] in c.itemlist;
      FaceOf(S, c.itemlist[i]);
    }
    hide Dropped;
  }

  /** What the items of some entries are worth, by any worth. */
  ghost function Taken(g: WorthOf, faces: map<Item, Face>, m: Entries): nat {
    if m == [] then 0 else
      (if m[0].item in faces then FaceWorth(g, faces[m[0].item]) else 0) + Taken(g, faces, m[1..])
  }

  lemma {:induction false} TakenStep(g: WorthOf, faces: map<Item, Face>, m: Entries, i: nat)
    requires i < |m| && m[i].item in faces
    ensures Taken(g, faces, m[..i + 1]) == Taken(g, faces, m[..i]) + FaceWorth(g, faces[m[i].item])
  {
    if i == 0 {
      assert m[..1][1..] == [] && m[..0] == [];
    } else {
      assert m[..i + 1][1..] == m[1..][..i] && m[..i][1..] == m[1..][..i - 1];
      TakenStep(g, faces, m[1..], i - 1);
    }
  }

  /** By any worth, the forest has the items of the first entries less. */
  ghost predicate PaidOut(faces: map<Item, Face>, before: map<Item, seq<Stack>>, after: map<Item, seq<Stack>>, m: Entries,
                          i: nat)
    requires i <= |m|
  {
    forall g: WorthOf :: StockWorth(g, after) + Taken(g, faces, m[..i]) == StockWorth(g, before)
  }

  lemma {:induction false} OneMoreOut(faces: map<Item, Face>, a: map<Item, seq<Stack>>, b: map<Item, seq<Stack>>,
                                      e: map<Item, seq<Stack>>, m: Entries, i: nat)
    requires i < |m| && PaidOut(faces, a, b, m, i) && m[i].item in faces
    requires Shrank(b, e, faces[m[i].item].id, faces[m[i].item].count)
    ensures PaidOut(faces, a, e, m, i + 1)
  {
    hide StockWorth, Taken;
    forall g: WorthOf
      ensures StockWorth(g, e) + Taken(g, faces, m[..i + 1]) == StockWorth(g, a)
    {
      TakenStep(g, faces, m, i);
    }
  }

  /** How a payment ends: by any worth, the items of the first `k` entries are gone, and of the next one `n` coins were
    exchanged for greedy change; what of this does not fit into the container, as the first entries have left it, is on
    the ground. */
  ghost predicate PaidOff(types: Types, w: WorthOf, cs: Currencies, faces: map<Item, Face>, before: map<Item, seq<Stack>>,
                          after: map<Item, seq<Stack>>, ground: seq<Stack>, m: Entries, k: nat, amount: nat, c: Item,
                          auto: bool)
    requires forall j :: 0 <= j < |cs| ==> cs[j].0 > 0
  {
    && k < |m| && m[k].item in faces && c in faces
    && var id, n := faces[m[k].item].id, CoinsNeeded(UnitAt(w, faces, m, k), OwedAt(m, k, amount));
       var change := ChangeAt(w, faces, m, k, amount);
       && (forall g: WorthOf ::
             StockWorth(g, after) + ContentWorth(g, ground) + Taken(g, faces, m[..k]) + g(id) * n ==
               StockWorth(g, before) + Given(g, cs, change))
       && ground == Refused(types, ContentOf(faces, Dropped(faces[c].list, Items(m[..k]))), c.maxSize, AllRolls(cs, change),
                            auto)
  }

  /** What a coin of entry `k` is worth, and what is owed when its turn comes. */
  ghost function UnitAt(w: WorthOf, faces: map<Item, Face>, m: Entries, k: nat): nat {
    if k < |m| && m[k].item in faces then w(faces[m[k].item].id) else 0
  }

  ghost function OwedAt(m: Entries, k: nat, amount: nat): nat {
    if k <= |m| && EntrySum(m[..k]) <= amount then amount - EntrySum(m[..k]) else 0
  }

  ghost function ChangeAt(w: WorthOf, faces: map<Item, Face>, m: Entries, k: nat, amount: nat): nat {
    Overpaid(UnitAt(w, faces, m, k), OwedAt(m, k, amount))
  }

  /** A stack was broken. */
  lemma {:induction false} OffByBreaking(types: Types, w: WorthOf, cs: Currencies, faces: map<Item, Face>,
                                         a: map<Item, seq<Stack>>, b: map<Item, seq<Stack>>, e: map<Item, seq<Stack>>,
                                         ground: seq<Stack>, m: Entries, k: nat, owed: nat, amount: nat, c: Item, auto: bool)
    requires MoneyOk(types, w, cs) && k < |m| && m[k].item in faces && c in faces && c in b
    requires PaidOut(faces, a, b, m, k) && EntrySum(m[..k]) + owed == amount
    requires var id := faces[m[k].item].id; var change := Overpaid(w(id), owed);
      && Exchanged(b, e, ground, id, CoinsNeeded(w(id), owed), cs, change)
      && ground == Refused(types, b[c], c.maxSize, AllRolls(cs, change), auto)
    requires b[c] == ContentOf(faces, Dropped(faces[c].list, Items(m[..k])))
    ensures PaidOff(types, w, cs, faces, a, e, ground, m, k, amount, c, auto)
  {
    hide StockWorth, ContentWorth, Given, Refused, Taken, ContentOf, Dropped, Items, AllRolls, CoinsNeeded, Overpaid,
         EntrySum;
  }

  /** Or a whole stack was what was owed. */
  lemma {:induction false} OffInWhole(types: Types, w: WorthOf, cs: Currencies, faces: map<Item, Face>,
                                      a: map<Item, seq<Stack>>, b: map<Item, seq<Stack>>, e: map<Item, seq<Stack>>,
                                      m: Entries, k: nat, owed: nat, amount: nat, c: Item, auto: bool)
    requires MoneyOk(types, w, cs) && k < |m| && m[k].item in faces && c in faces
    requires PaidOut(faces, a, b, m, k) && EntrySum(m[..k]) + owed == amount && 0 < owed
    requires var f := faces[m[k].item]; owed == FaceWorth(w, f) && Shrank(b, e, f.id, f.count)
    ensures PaidOff(types, w, cs, faces, a, e, [], m, k, amount, c, auto)
    ensures CoinsNeeded(UnitAt(w, faces, m, k), OwedAt(m, k, amount)) == faces[m[k].item].count
  {
    hide StockWorth, Refused, Taken, ContentOf, Dropped, Items, AllRolls, EntrySum, CoinsNeeded, Overpaid;
    var f := faces[m[k].item];
    BothCount(w(f.id), f.count);
    WholeCoins(owed, w(f.id), f.count);
    NoRolls(cs);
    NothingRefused(types, ContentOf(faces, Dropped(faces[c].list, Items(m[..k]))), c.maxSize, auto);
    forall g: WorthOf
      ensures Given(g, cs, 0) == 0
    {
      NothingGiven(g, cs);
    }
    hide Given;
  }

  /** Change is on the ground only if the container has no space for it, and none is if there is a free slot for every stack
    even before anything has left. */
  lemma {:induction false} ChangeOnGround(types: Types, w: WorthOf, cs: Currencies, faces: map<Item, Face>,
                                          before: map<Item, seq<Stack>>, after: map<Item, seq<Stack>>, ground: seq<Stack>,
                                          m: Entries, k: nat, amount: nat, c: Item, auto: bool)
    requires MoneyOk(types, w, cs) && PaidOff(types, w, cs, faces, before, after, ground, m, k, amount, c, auto)
    ensures AllPickupable(types, cs) && |faces[c].list| + |AllRolls(cs, ChangeAt(w, faces, m, k, amount))| <= c.maxSize ==>
      ground == []
    ensures var s := ContentOf(faces, Dropped(faces[c].list, Items(m[..k])));
      var xs := AllRolls(cs, ChangeAt(w, faces, m, k, amount));
      forall x :: x in ground ==> x in xs && !FitsIn(types, Received(types, s, c.maxSize, xs, auto), c.maxSize, x, auto)
  {
    hide FitsIn, EntrySum, Overpaid, CoinsNeeded, Taken, StockWorth, ContentWorth, Given;
    var s, xs := ContentOf(faces, Dropped(faces[c].list, Items(m[..k]))), AllRolls(cs, ChangeAt(w, faces, m, k, amount));
    DroppedIn(faces[c].list, Items(m[..k]));
    AllRollsAreCoins(types, cs, ChangeAt(w, faces, m, k, amount));
    RefusedDoesNotFit(types, s, c.maxSize, xs, auto);
    if AllPickupable(types, cs) && |s| + |xs| <= c.maxSize {
      assert forall i :: 0 <= i < |xs| ==> xs[i] in xs;
      NothingIsRefused(types, s, c.maxSize, xs, auto);
    }
  }

  lemma {:induction false} NothingRefused(types: Types, s: seq<Stack>, size: nat, auto: bool)
    ensures Refused(types, s, size, [], auto) == []
  {
  }

  lemma {:induction false} WholeCoins(owed: nat, unit: nat, count: nat)
    requires 0 < unit && 0 < count && owed == unit * count
    ensures CoinsNeeded(unit, owed) == count && Overpaid(unit, owed) == 0
  {
    OverpaidExactly(owed, unit, count);
    hide Overpaid;
    var v := owed + unit - 1;
    Euclid(v, unit);
    Difference(unit, v / unit, count);
    FewMultiples(unit, v / unit - count, unit - 1 - v % unit);
  }

  /** What is still to be paid once the first entries are spent. */
  ghost predicate Owing(w: WorthOf, before: map<Item, seq<Stack>>, after: map<Item, seq<Stack>>, m: Entries, i: nat,
                        money: int, amount: nat)
    requires i <= |m|
  {
    && 0 < money && EntrySum(m[..i]) + money == amount
    && StockWorth(w, after) + EntrySum(m[..i]) == StockWorth(w, before)
  }

  lemma {:induction false} OneMorePaid(w: WorthOf, a: map<Item, seq<Stack>>, b: map<Item, seq<Stack>>,
                                       e: map<Item, seq<Stack>>, m: Entries, i: nat, money: int, amount: nat, id: nat,
                                       n: nat)
    requires i < |m| && Owing(w, a, b, m, i, money, amount) && Shrank(b, e, id, n) && w(id) * n == m[i].worth
    ensures Items(m[..i + 1]) == Items(m[..i]) + {m[i].item}
    ensures m[i].worth < money ==> Owing(w, a, e, m, i + 1, money - m[i].worth, amount)
    ensures StockWorth(w, e) + EntrySum(m[..i + 1]) == StockWorth(w, a)
  {
    hide StockWorth, EntrySum, Items;
    EntryStep(m, i);
  }

  lemma {:induction false} StillOwing(w: WorthOf, a: map<Item, seq<Stack>>, b: map<Item, seq<Stack>>, m: Entries, i: nat,
                                      money: int, amount: nat)
    requires i < |m| && Owing(w, a, b, m, i, money, amount)
    ensures 0 < money && EntrySum(m[..i]) + money == amount && EntrySum(m[..i + 1]) == EntrySum(m[..i]) + m[i].worth
    ensures StockWorth(w, b) + EntrySum(m[..i]) == StockWorth(w, a)
  {
    hide StockWorth, EntrySum;
    EntryStep(m, i);
  }

  /** The entries cannot run out before the amount is paid. */
  lemma {:induction false} NeverOut(w: WorthOf, a: map<Item, seq<Stack>>, b: map<Item, seq<Stack>>, m: Entries,
                                    money: int, amount: nat)
    requires amount <= EntrySum(m)
    ensures !Owing(w, a, b, m, |m|, money, amount)
  {
    assert m[..|m|] == m;
  }

  /** How far a payment has come before entry `i`. */
  ghost predicate Paying(w: WorthOf, faces: map<Item, Face>, now: map<Item, Face>, stock: map<Item, seq<Stack>>,
                         held: map<Item, seq<Stack>>, m: Entries, i: nat, money: int, amount: nat, c: Item, K: set<Item>)
    requires i <= |m|
  {
    && Untouched(faces, now, Items(m[..i]), K) && Owing(w, stock, held, m, i, money, amount)
    && Remaining(faces, now, c, Items(m[..i])) && PaidOut(faces, stock, held, m, i)
  }

  lemma {:induction false} NothingPaidYet(types: Types, w: WorthOf, S: set<Item>, faces: map<Item, Face>,
                                          stock: map<Item, seq<Stack>>, m: Entries, amount: nat, c: Item, K: set<Item>)
    requires Forest(types, S) && c in S && faces == Faces(S) && 0 < amount
    ensures Paying(w, faces, faces, stock, stock, m, 0, amount, amount, c, K) && ContentWorth(w, []) == 0
  {
    hide *;
    NothingSpent(w, faces, stock, m, amount, K);
    NothingTaken(types, S, c, faces, stock, m);
    PayingIs(w, faces, faces, stock, stock, m, 0, amount, amount, c, K);
  }

  lemma {:induction false} PayingIs(w: WorthOf, faces: map<Item, Face>, now: map<Item, Face>, stock: map<Item, seq<Stack>>,
                                    held: map<Item, seq<Stack>>, m: Entries, i: nat, money: int, amount: nat, c: Item,
                                    K: set<Item>)
    requires i <= |m|
    ensures Paying(w, faces, now, stock, held, m, i, money, amount, c, K) <==>
      && Untouched(faces, now, Items(m[..i]), K) && Owing(w, stock, held, m, i, money, amount)
      && Remaining(faces, now, c, Items(m[..i])) && PaidOut(faces, stock, held, m, i)
  {
  }

  /** What is known when the turn of an entry comes. */
  lemma {:induction false} Payment(w: WorthOf, faces: map<Item, Face>, S: set<Item>, stock: map<Item, seq<Stack>>,
                                   m: Entries, i: nat, money: int, amount: nat, c: Item, K: set<Item>)
    requires i < |m| && Listed(w, faces, K, m) && c in S
    requires Paying(w, faces, Faces(S), stock, Stock(S), m, i, money, amount, c, K)
    ensures var x := m[i].item;
      && x in S && x !in Items(m[..i]) && x.parent != null && x.parent in K && x.parent == faces[x].parent
      && Worth(w, x) == w(x.id) * x.count == m[i].worth && 0 < m[i].worth
      && x in faces && faces[x].id == x.id && faces[x].count == x.count && FaceWorth(w, faces[x]) == m[i].worth
    ensures 0 < money && EntrySum(m[..i]) + money == amount && EntrySum(m[..i + 1]) == EntrySum(m[..i]) + m[i].worth
    ensures StockWorth(w, Stock(S)) + EntrySum(m[..i]) == StockWorth(w, stock)
    ensures Untouched(faces, Faces(S), Items(m[..i]), K) && PaidOut(faces, stock, Stock(S), m, i)
    ensures Stock(S)[c] == ContentOf(faces, Dropped(faces[c].list, Items(m[..i])))
  {
    hide *;
    PayingIs(w, faces, Faces(S), stock, Stock(S), m, i, money, amount, c, K);
    NextEntry(w, faces, S, m, i, K);
    StillOwing(w, stock, Stock(S), m, i, money, amount);
    ContentLeft(faces, S, c, Items(m[..i]), K);
  }

  /** The whole stack of an entry was removed. */
  lemma {:induction false} StackPaid(w: WorthOf, faces: map<Item, Face>, middle: map<Item, Face>, after: map<Item, Face>,
                                     stock: map<Item, seq<Stack>>, held: map<Item, seq<Stack>>,
                                     left: map<Item, seq<Stack>>, m: Entries, i: nat, money: int, amount: nat, c: Item,
                                     K: set<Item>)
    requires i < |m| && Paying(w, faces, middle, stock, held, m, i, money, amount, c, K) && m[i].item in faces
    requires var x := m[i].item; var f := faces[x];
      && x !in Items(m[..i]) && f.parent != null && f.parent in K && m[i].worth == FaceWorth(w, f)
      && Removed(middle, after, x, f.count) && x in middle && middle[x].count == f.count && Shrank(held, left, f.id, f.count)
    ensures Untouched(faces, after, Items(m[..i]) + {m[i].item}, K)
    ensures m[i].worth < money ==> Paying(w, faces, after, stock, left, m, i + 1, money - m[i].worth, amount, c, K)
    ensures StockWorth(w, left) + EntrySum(m[..i + 1]) == StockWorth(w, stock)
  {
    hide *;
    var x := m[i].item;
    PayingIs(w, faces, middle, stock, held, m, i, money, amount, c, K);
    OneMoreGone(faces, middle, after, Items(m[..i]), x, faces[x].count, K);
    FaceWorthIs(w, faces[x]);
    OneMorePaid(w, stock, held, left, m, i, money, amount, faces[x].id, faces[x].count);
    OneFewer(faces, middle, after, c, Items(m[..i]), x, faces[x].count, K);
    OneMoreOut(faces, stock, held, left, m, i);
    PayingIs(w, faces, after, stock, left, m, i + 1, money - m[i].worth, amount, c, K);
  }

  lemma {:induction false} FaceWorthIs(w: WorthOf, f: Face)
    ensures FaceWorth(w, f) == w(f.id) * f.count
  {
  }

  lemma {:induction false} PaidBefore(w: WorthOf, faces: map<Item, Face>, now: map<Item, Face>,
                                      stock: map<Item, seq<Stack>>, held: map<Item, seq<Stack>>, m: Entries, money: int,
                                      amount: nat, c: Item, K: set<Item>)
    requires amount <= EntrySum(m)
    ensures !Paying(w, faces, now, stock, held, m, |m|, money, amount, c, K)
  {
    hide *;
    PayingIs(w, faces, now, stock, held, m, |m|, money, amount, c, K);
    NeverOut(w, stock, held, m, money, amount);
  }

  lemma {:induction false} AtEntry(w: WorthOf, faces: map<Item, Face>, m: Entries, k: nat, money: int, amount: nat)
    requires k < |m| && m[k].item in faces && 0 <= money && EntrySum(m[..k]) + money == amount
    ensures UnitAt(w, faces, m, k) == w(faces[m[k].item].id) && OwedAt(m, k, amount) == money
  {
  }

  lemma {:induction false} NothingTaken(types: Types, S: set<Item>, c: Item, faces: map<Item, Face>,
                                        stock: map<Item, seq<Stack>>, m: Entries)
    requires Forest(types, S) && c in S && faces == Faces(S)
    ensures Remaining(faces, faces, c, Items(m[..0])) && PaidOut(faces, stock, stock, m, 0)
  {
    OwnChildren(types, S, c);
    NothingDropped(c.itemlist);
    assert Items(m[..0]) == {};
  }

  lemma {:induction false} NothingSpent(w: WorthOf, faces: map<Item, Face>, stock: map<Item, seq<Stack>>, m: Entries,
                                        amount: nat, K: set<Item>)
    requires 0 < amount
    ensures Untouched(faces, faces, Items(m[..0]), K) && Owing(w, stock, stock, m, 0, amount, amount)
    ensures ContentWorth(w, []) == 0
  {
    assert Items(m[..0]) == {};
  }

  /** What is lost when the entry `k` is the last one that is needed: what no change can be given for. */
  ghost predicate ChangeLost(w: WorthOf, faces: map<Item, Face>, cs: Currencies, m: Entries, k: nat, amount: nat, lost: nat)
    requires forall i :: 0 <= i < |cs| ==> cs[i].0 > 0
  {
    && k < |m| && m[k].item in faces && EntrySum(m[..k]) <= amount
    && lost == Leftover(cs, Overpaid(w(faces[m[k].item].id), amount - EntrySum(m[..k])))
  }

  /** A whole stack leaves nothing to be changed. */
  lemma {:induction false} NoneLost(types: Types, w: WorthOf, faces: map<Item, Face>, cs: Currencies, m: Entries, k: nat,
                                    amount: nat)
    requires MoneyOk(types, w, cs) && k < |m| && m[k].item in faces && 0 < m[k].worth
    requires m[k].worth == FaceWorth(w, faces[m[k].item]) && EntrySum(m[..k]) + m[k].worth == amount
    ensures ChangeLost(w, faces, cs, m, k, amount, 0)
  {
    hide Leftover, Overpaid, EntrySum;
    var f := faces[m[k].item];
    BothCount(w(f.id), f.count);
    OverpaidExactly(m[k].worth, w(f.id), f.count);
    NothingLeftOfNothing(cs);
  }

  lemma {:induction false} LostByBreaking(types: Types, w: WorthOf, faces: map<Item, Face>, cs: Currencies, m: Entries,
                                          k: nat, owed: nat, amount: nat, lost: nat)
    requires MoneyOk(types, w, cs) && k < |m| && m[k].item in faces
    requires EntrySum(m[..k]) + owed == amount && lost == Leftover(cs, Overpaid(w(faces[m[k].item].id), owed))
    ensures ChangeLost(w, faces, cs, m, k, amount, lost)
  {
    hide Leftover, Overpaid, EntrySum;
  }

  /** `Game::removeMoney` for a container.  It succeeds if and only if the container holds enough money, at any depth, and
    otherwise changes nothing.  On success exactly the amount is gone from the forest and the ground, but for
    what no change can be given; the stacks are used up from the least valuable on, the last one of them is
    broken if it is worth more than is still owed, and nothing else leaves its place or shrinks. */
  method RemoveMoney(types: Types, w: WorthOf, currencies: Currencies, c: Item, amount: nat, flags: Flags,
                     ghost S: set<Item>)
    returns (ok: bool, ground: seq<Stack>, ghost moneyMap: Entries, ghost spent: nat, ghost lost: nat,
             ghost T: set<Item>)
    requires MoneyOk(types, w, currencies) && Forest(types, S) && WellStocked(types, S) && c in S && c.isContainer
    requires !flags.noLimit && !flags.childIsOwner
    modifies S
    ensures S <= T && fresh(T - S) && Forest(types, T) && WellStocked(types, T)
    ensures ok <==> amount <= old(Carried(w, S, c))
    ensures !ok || amount == 0 ==> unchanged(S) && T == S && ground == []
    ensures ok && amount > 0 ==>
      StockWorth(w, Stock(T)) + ContentWorth(w, ground) + amount + lost == StockWorth(w, old(Stock(S)))
    ensures !ok || amount == 0 || HasUnitCoin(currencies) ==> lost == 0
    ensures ok && amount > 0 ==> ChangeLost(w, old(Faces(S)), currencies, moneyMap, spent, amount, lost)
    ensures ok && amount > 0 ==>
      Listed(w, old(Faces(S)), old(Below(S, c)), moneyMap) && EntrySum(moneyMap) == old(Carried(w, S, c))
    ensures ok && amount > 0 ==> spent < |moneyMap|
    ensures ok && amount > 0 ==> EntrySum(moneyMap[..spent]) < amount <= EntrySum(moneyMap[..spent + 1])
    ensures ok && amount > 0 ==>
      Spent(old(Faces(S)), Faces(T), Items(moneyMap[..spent]), moneyMap[spent].item,
            CoinsNeeded(UnitAt(w, old(Faces(S)), moneyMap, spent), OwedAt(moneyMap, spent, amount)), old(Below(S, c)))
    ensures ok && amount > 0 ==>
      PaidOff(types, w, currencies, old(Faces(S)), old(Stock(S)), Stock(T), ground, moneyMap, spent, amount, c,
              !flags.ignoreAutoStack)
    ensures ok && amount > 0 && AllPickupable(types, currencies)
      && |old(Faces(S))[c].list| + |AllRolls(currencies, ChangeAt(w, old(Faces(S)), moneyMap, spent, amount))| <= c.maxSize
      ==> ground == []
  {
    hide *;
    LinkedForest(types, S);
    ok, ground, T, moneyMap, spent, lost := true, [], S, [], 0, 0;
    if amount == 0 { return; }
    ghost var found;
    var entries, moneyCount;
    entries, moneyCount, found := CollectMoney(w, c, S);
    if moneyCount < amount { ok := false; return; }
    moneyMap := entries;
    ghost var faces, stock, K := Faces(S), Stock(S), Below(S, c);
    OwnBelow(S, c);
    NothingPaidYet(types, w, S, faces, stock, entries, amount, c, K);
    var money := amount;
    for i := 0 to |entries|
      invariant T == S && Forest(types, S) && WellStocked(types, S)
      invariant Paying(w, faces, Faces(S), stock, Stock(S), entries, i, money, amount, c, K)
    {
      var Entry(worth, item) := entries[i];
      Payment(w, faces, S, stock, entries, i, money, amount, c, K);
      spent := i;
      ghost var middle, held := Faces(S), Stock(S);
      AtEntry(w, faces, entries, i, money, amount);
      if worth > money {
        ground, lost, T := Break(types, w, currencies, c, item, money, flags, S);
        LostByBreaking(types, w, faces, currencies, entries, i, money, amount, lost);
        LastBroken(faces, middle, Faces(T), Items(entries[..i]), c, item,
                   CoinsNeeded(UnitAt(w, faces, entries, i), OwedAt(entries, i, amount)), K);
        OffByBreaking(types, w, currencies, faces, stock, held, Stock(T), ground, entries, i, money, amount, c,
                      !flags.ignoreAutoStack);
        ChangeOnGround(types, w, currencies, faces, stock, Stock(T), ground, entries, i, amount, c, !flags.ignoreAutoStack);
        return;
      }
      StackedMoney(types, w, currencies, S, item);
      FaceOf(S, item);
      var id, n := item.id, item.count;
      var ret := InternalRemoveItem(types, item, n, S);
      StackPaid(w, faces, middle, Faces(S), stock, held, Stock(S), entries, i, money, amount, c, K);
      if worth == money {
        NoneLost(types, w, faces, currencies, entries, i, amount);
        LastGone(faces, Faces(S), Items(entries[..i]), item, K);
        OffInWhole(types, w, currencies, faces, stock, held, Stock(S), entries, i, money, amount, c, !flags.ignoreAutoStack);
        return;
      }
      money := money - worth;
    }
    PaidBefore(w, faces, Faces(S), stock, Stock(S), entries, money, amount, c, K);
    assert false;
  }

  lemma {:induction false} ProductSign(b: nat, d: int)
    requires b > 0
    ensures d >= 0 ==> b * d >= 0
    ensures d >= 1 ==> b * d >= b
    ensures d <= -1 ==> b * d < 0
  {
    if d <= -1 { assert b * d == -(b * -d); }
  }

  lemma {:induction false} UnitWorth(unit: nat, count: nat)
    requires count > 0
    ensures (unit * count) / count == unit
  {
    var v := unit * count;
    var q := v / count;
    assert v == count * q + v % count;
    assert count * (unit - q) == v % count;
    ProductSign(count, unit - q);
  }

  /** The number of coins removed covers the amount, by less than one coin, and does not exceed the stack. */
  lemma {:induction false} RoundedUp(owed: nat, unit: nat, count: nat)
    requires 0 < unit && 0 < owed < unit * count
    ensures var n := CoinsNeeded(unit, owed); 1 <= n <= count && unit * n - owed == Overpaid(unit, owed) < unit
  {
    hide Overpaid;
    var n := (owed + unit - 1) / unit;
    assert owed + unit - 1 == unit * n + (owed + unit - 1) % unit;
    assert unit * (n - count) == unit * n - unit * count;
    ProductSign(unit, n - count);
    ProductSign(unit, n);
    OverpaidExactly(owed, unit, n);
  }

  /** Too many coins by less than one of them. */
  lemma {:induction false} OverpaidExactly(owed: nat, unit: nat, n: nat)
    requires 0 <= unit * n - owed < unit
    ensures Overpaid(unit, owed) == unit * n - owed
  {
    Euclid(owed, unit);
    OverpaidIs(unit, owed);
    hide Overpaid;
    var q, r := owed / unit, owed % unit;
    WholeOrNext(owed, unit, n, q, r);
    RestOf(unit, unit * n - owed);
    if r == 0 { OneRound(unit); }
  }

  lemma {:induction false} Euclid(a: nat, b: nat)
    requires 0 < b
    ensures a == b * (a / b) + a % b && 0 <= a % b < b
  {
  }

  /** What is rounded up is whole already, or is brought up to the next multiple. */
  lemma {:induction false} WholeOrNext(owed: nat, unit: nat, n: nat, q: nat, r: nat)
    requires 0 <= unit * n - owed < unit && owed == unit * q + r && r < unit
    ensures unit * n - owed == if r == 0 then 0 else unit - r
  {
    Difference(unit, n, q);
    FewMultiples(unit, n - q, unit * n - owed + r);
  }

  lemma {:induction false} OverpaidIs(unit: nat, owed: nat)
    requires 0 < unit
    ensures Overpaid(unit, owed) == (unit - owed % unit) % unit
  {
  }

  lemma {:induction false} Difference(a: int, x: int, y: int)
    ensures a * (x - y) == a * x - a * y
  {
  }

  /** A multiple below two units is none or one. */
  lemma {:induction false} FewMultiples(unit: nat, k: int, v: int)
    requires unit * k == v && 0 <= v < 2 * unit - 1
    ensures k == 0 || k == 1
  {
    ProductSign(unit, k);
    Difference(unit, k, 2);
    ProductSign(unit, k - 2);
  }

  lemma {:induction false} RestOf(unit: nat, d: nat)
    requires d < unit
    ensures d % unit == d
  {
  }

  lemma {:induction false} OneRound(unit: nat)
    requires 0 < unit
    ensures unit % unit == 0
  {
  }

  lemma {:induction false} Divided(a: nat, b: nat)
    requires b > 0
    ensures a - (a / b) * b == a % b && (a / b > 0 ==> b <= a)
  {
  }
}
