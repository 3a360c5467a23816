/** The range rule of trades (src/game.cpp `playerRequestTrade`; src/player.cpp `onCreatureMove`, `checkTradeState`,
  `onAddContainerItem`, `onRemoveContainerItem`, `onRemoveInventoryItem`, `onRemoveTileItem`;
  src/container.cpp `onAddContainerItem`, `onRemoveContainerItem`).

  An item can be offered only within one square of the player who offers it, and the trade ends as soon as
  a step takes the player further away.  So this player is always among those who are told when the item, or
  anything that holds it, leaves its place, and the trade ends then.  Over every run of requests, steps and
  moves of items no traded item comes to lie in another one. */
module TradeRange {
  import opened Wrappers
  import opened Positions
  import opened TradeProtocol
  import opened TradedItems
  import F = ItemForest

  // ---- scenes -----------------------------------------------------------------------------------

  /** Where an item is with all that holds it: on the floor, or with a player. */
  datatype Place = Floor(at: Position) | OnPlayer(holder: nat)

  /** The trades, where each item lies and what its place is, and where the players are. */
  datatype Scene = Scene(world: World, paths: Paths, places: Places, spots: Spots)

  type Places = map<Item, Place>

  type Spots = map<nat, Position>

  /** `getPosition` of an item: that of the floor that it is on, or of the player who carries it. */
  function SpotOf(places: Places, spots: Spots, x: Item): Option<Position> {
    if x !in places then None else
      match places[x]
      case Floor(at) => Some(at)
      case OnPlayer(q) => if q in spots then Some(spots[q]) else None
  }

  /** The item is within one square of the player, on the same floor. */
  predicate Near(places: Places, spots: Spots, p: nat, x: Item) {
    && p in spots && SpotOf(places, spots, x).Some?
    && InRange(SpotOf(places, spots, x).value, spots[p], 1, 1, 0)
  }

  /** And it is not with another player. */
  predicate AtReach(places: Places, spots: Spots, p: nat, x: Item) {
    Near(places, spots, p, x) && (places[x].OnPlayer? ==> places[x].holder == p)
  }

  /** The players are within two squares of each other, on the same floor. */
  predicate Beside(spots: Spots, p: nat, q: nat) {
    p in spots && q in spots && InRange(spots[q], spots[p], 2, 2, 0)
  }

  /** In squares: an item is near a player whose square it is on or next to, and players are beside each other up to two
    squares apart, always on the same floor. */
  lemma {:induction false} RangesAre(places: Places, spots: Spots, p: nat, q: nat, x: Item)
    requires p in spots
    ensures x in places && places[x].Floor? ==>
      var a, b := places[x].at, spots[p];
      (Near(places, spots, p, x) <==> a.z == b.z && -1 <= a.x - b.x <= 1 && -1 <= a.y - b.y <= 1)
    ensures x in places && places[x] == OnPlayer(p) ==> Near(places, spots, p, x)
    ensures q in spots ==>
      var a, b := spots[q], spots[p];
      (Beside(spots, p, q) <==> a.z == b.z && -2 <= a.x - b.x <= 2 && -2 <= a.y - b.y <= 2)
  {
  }

  /** Items are where their containers are. */
  ghost predicate PlacesOk(paths: Paths, places: Places) {
    && places.Keys == paths.Keys
    && forall x, c :: x in paths && c in paths[x] ==> c in places && places[c] == places[x]
  }

  /** Every offer is within reach of the player who makes it, and with no other player. */
  ghost predicate Reached(w: World, places: Places, spots: Spots) {
    forall x :: x in w.tradeItems ==> AtReach(places, spots, w.tradeItems[x], x)
  }

  ghost predicate PartnersBeside(w: World, spots: Spots) {
    forall p :: p in w.players && w.players[p].partner.Some? ==> Beside(spots, p, w.players[p].partner.value)
  }

  /** What holds after every run. */
  ghost predicate Sound(s: Scene) {
    && Invariant(s.world) && Apart(s.world, s.paths) && s.world.tradeItems.Keys <= s.paths.Keys
    && s.spots.Keys == s.world.players.Keys
    && PathsOk(s.paths) && PlacesOk(s.paths, s.places)
    && Reached(s.world, s.places, s.spots) && PartnersBeside(s.world, s.spots)
  }

  // ---- what can happen --------------------------------------------------------------------------

  /** Where an item is put. */
  datatype Goal = Into(c: Item) | Onto(place: Place)

  /** A step of the protocol; a player who walks or is moved; an item that is moved, comes into being or goes out of
    being, with the players who are told, in order. */
  datatype Action =
    | Trade(e: Event)
    | Walk(p: nat, spot: Position)
    | Carry(item: Item, goal: Goal, leaving: seq<nat>, arriving: seq<nat>)
    | Appear(item: Item, goal: Goal, arriving: seq<nat>)
    | Vanish(item: Item, leaving: seq<nat>)

  /** The checks of `playerRequestTrade` that concern places: the players are beside each other, the item is within reach
    and not with another player, and no traded item lies in it or the other way round. */
  ghost predicate MayOffer(s: Scene, p: nat, q: nat, x: Item) {
    Beside(s.spots, p, q) && AtReach(s.places, s.spots, p, x) && Disjoint(s.world.tradeItems.Keys, x, s.paths)
  }

  ghost function Judged(s: Scene, e: Event): Event {
    if e.StartTrade? then e.(clear := e.clear && MayOffer(s, e.p, e.q, e.item)) else e
  }

  /** `Player::onCreatureMove` for the player who has moved. */
  function Moved(w: World, places: Places, spots: Spots, p: nat): World
    requires p in w.players
  {
    var a := w.players[p];
    var w1 := if a.item.Some? && !Near(places, spots, p, a.item.value) then Close(w, p) else w;
    var b := w1.players[p];
    if b.partner.Some? && !Beside(spots, p, b.partner.value) then Close(w1, p) else w1
  }

  function ContainerOf(goal: Goal): Option<Item> {
    if goal.Into? then Some(goal.c) else None
  }

  function PlaceOf(places: Places, goal: Goal): Place
    requires goal.Into? ==> goal.c in places
  {
    if goal.Into? then places[goal.c] else goal.place
  }

  /** Who is told that an item leaves: of a container, all players within one square of it; of an inventory, the player;
    of a floor, all who see it, and these include all players within one square. */
  ghost predicate ToldOfLeaving(s: Scene, x: Item, leaving: seq<nat>)
    requires x in s.paths && x in s.places
  {
    if |s.paths[x]| > 1 then
      forall p :: p in leaving <==> p in s.world.players && Near(s.places, s.spots, p, x)
    else match s.places[x]
      case OnPlayer(q) => forall p :: p in leaving <==> p == q
      case Floor(_) => forall p :: p in s.world.players && Near(s.places, s.spots, p, x) ==> p in leaving
  }

  /** Who is told that an item has arrived: all players within one square of the container. */
  ghost predicate ToldOfArriving(s: Scene, goal: Goal, arriving: seq<nat>) {
    if goal.Into? then forall p :: p in arriving <==> p in s.world.players && Near(s.places, s.spots, p, goal.c)
    else arriving == []
  }

  ghost function MoveOf(s: Scene, x: Item, to: Option<Item>, leaving: seq<nat>, arriving: seq<nat>): Move
    requires x in s.paths
  {
    Move(x, Container(s.paths, x), to, leaving, arriving)
  }

  ghost predicate CarryHappens(s: Scene, x: Item, goal: Goal, leaving: seq<nat>, arriving: seq<nat>, t: Scene) {
    && x in s.paths && x in s.places && (goal.Into? ==> goal.c in s.paths && goal.c in s.places && x !in s.paths[goal.c])
    && ToldOfLeaving(s, x, leaving) && ToldOfArriving(s, goal, arriving)
    && t.world == Seen(s.world, s.paths, MoveOf(s, x, ContainerOf(goal), leaving, arriving))
    && t.paths == Rehung(s.paths, x, ContainerOf(goal)) && t.spots == s.spots
    && t.places.Keys == s.places.Keys
    && forall y :: y in s.places ==>
         t.places[y] == if y in s.paths && x in s.paths[y] then PlaceOf(s.places, goal) else s.places[y]
  }

  ghost predicate AppearHappens(s: Scene, x: Item, goal: Goal, arriving: seq<nat>, t: Scene) {
    && x !in s.paths && (goal.Into? ==> goal.c in s.paths && goal.c in s.places)
    && ToldOfArriving(s, goal, arriving)
    && var up := if goal.Into? then s.paths[goal.c] else [];
       && t.world == Closings(s.world, arriving, {x} + set c | c in up)
       && t.paths == s.paths[x := [x] + up]
       && t.places == s.places[x := PlaceOf(s.places, goal)] && t.spots == s.spots
  }

  ghost predicate VanishHappens(s: Scene, x: Item, leaving: seq<nat>, t: Scene) {
    && x in s.paths && x in s.places && ToldOfLeaving(s, x, leaving)
    && t.world == Closings(s.world, leaving, TouchedByLeaving(s.paths, MoveOf(s, x, None, leaving, [])))
    && t.paths == (map y | y in s.paths && x !in s.paths[y] :: s.paths[y])
    && t.places == (map y | y in s.places && y in s.paths && x !in s.paths[y] :: s.places[y]) && t.spots == s.spots
  }

  /** One action turns the scene `s` into the scene `t`. */
  ghost predicate Happens(s: Scene, a: Action, t: Scene) {
    match a
    case Trade(e) => t == s.(world := Step(s.world, Judged(s, e)))
    case Walk(p, spot) =>
      && p in s.world.players && t.paths == s.paths && t.places == s.places && t.spots == s.spots[p := spot]
      && t.world == Moved(s.world, s.places, t.spots, p)
    case Carry(x, goal, leaving, arriving) => CarryHappens(s, x, goal, leaving, arriving, t)
    case Appear(x, goal, arriving) => AppearHappens(s, x, goal, arriving, t)
    case Vanish(x, leaving) => VanishHappens(s, x, leaving, t)
  }

  // ---- every action -----------------------------------------------------------------------------

  /** What a step of the protocol can add: the item requested, and the two partners. */
  ghost predicate OnlyRequested(w: World, v: World, e: Event) {
    && (forall x :: x in v.tradeItems ==>
          || (x in w.tradeItems && v.tradeItems[x] == w.tradeItems[x])
          || (e.StartTrade? && e.clear && x == e.item && v.tradeItems[x] == e.p))
    && (forall p :: p in v.players && v.players[p].partner.Some? ==>
          || (p in w.players && v.players[p].partner == w.players[p].partner)
          || (e.StartTrade? && e.clear && p == e.p && v.players[p].partner == Some(e.q))
          || (e.StartTrade? && e.clear && p == e.q && v.players[p].partner == Some(e.p)))
  }

  /** Every offer and every partner was there before. */
  ghost predicate NothingAdded(w: World, v: World) {
    && (forall x :: x in v.tradeItems ==> x in w.tradeItems && v.tradeItems[x] == w.tradeItems[x])
    && (forall p :: p in v.players && v.players[p].partner.Some? ==>
          p in w.players && v.players[p].partner == w.players[p].partner)
  }

  lemma {:induction false} StartAdds(w: World, e: Event)
    requires e.StartTrade? && e.p in w.players && e.q in w.players
    ensures OnlyRequested(w, Start(w, e.p, e.q, e.item, e.clear), e)
  {
  }

  lemma {:induction false} CloseAdds(w: World, p: nat)
    requires p in w.players
    ensures NothingAdded(w, Close(w, p))
  {
  }

  lemma {:induction false} CompleteAdds(w: World, p: nat, q: nat)
    requires p in w.players && q in w.players
    ensures NothingAdded(w, Complete(w, p, q))
  {
  }

  lemma {:induction false} AcceptAdds(w: World, p: nat, canThrow: bool, consents: bool)
    requires p in w.players
    ensures NothingAdded(w, Accept(w, p, canThrow, consents))
  {
    var a := w.players[p];
    var w1 := With(w, p, a.(state := ACCEPT));
    CloseAdds(w1, p);
    if a.partner.Some? && a.partner.value in w.players { CompleteAdds(w1, p, a.partner.value); }
    hide Close, Complete;
  }

  lemma {:induction false} StepAdds(w: World, e: Event)
    ensures OnlyRequested(w, Step(w, e), e)
  {
    hide Start, Accept, Close;
    match e
    case StartTrade(p, q, item, clear) => if p in w.players && q in w.players { StartAdds(w, e); }
    case AcceptTrade(p, canThrow, consents) => if p in w.players { AcceptAdds(w, p, canThrow, consents); }
    case CloseTrade(p) => if p in w.players { CloseAdds(w, p); }
  }

  lemma {:induction false} RequestsReach(s: Scene, v: World, e: Event)
    requires Reached(s.world, s.places, s.spots) && OnlyRequested(s.world, v, e)
    requires e.StartTrade? && e.clear ==> MayOffer(s, e.p, e.q, e.item)
    ensures Reached(v, s.places, s.spots)
  {
    hide Near, Beside, Disjoint;
  }

  lemma {:induction false} RequestsBeside(s: Scene, v: World, e: Event)
    requires PartnersBeside(s.world, s.spots) && OnlyRequested(s.world, v, e)
    requires e.StartTrade? && e.clear ==> MayOffer(s, e.p, e.q, e.item)
    ensures PartnersBeside(v, s.spots)
  {
    hide Near, Disjoint;
    assert forall p, q :: Beside(s.spots, p, q) ==> Beside(s.spots, q, p);
    hide Beside;
  }

  lemma {:induction false} RequestsHere(s: Scene, v: World, e: Event)
    requires s.world.tradeItems.Keys <= s.paths.Keys == s.places.Keys && OnlyRequested(s.world, v, e)
    requires e.StartTrade? && e.clear ==> MayOffer(s, e.p, e.q, e.item)
    ensures v.tradeItems.Keys <= s.paths.Keys
  {
    hide Disjoint;
  }

  lemma {:induction false} TradeKeepsSound(s: Scene, e: Event)
    requires Sound(s)
    ensures Sound(s.(world := Step(s.world, Judged(s, e))))
  {
    hide Invariant, Step, Apart, PathsOk, PlacesOk, Reached, PartnersBeside, OnlyRequested, Disjoint;
    var d, w := Judged(s, e), s.world;
    StepKeeps(w, d);
    StepKeepsApart(w, d, s.paths);
    StepAdds(w, d);
    RequestsReach(s, Step(w, d), d);
    RequestsBeside(s, Step(w, d), d);
    KeysOf(s);
    RequestsHere(s, Step(w, d), d);
  }

  lemma {:induction false} KeysOf(s: Scene)
    requires PlacesOk(s.paths, s.places)
    ensures s.paths.Keys == s.places.Keys
  {
  }

  /** Trades that are closed leave the others as they were. */
  lemma {:induction false} FewerIsSound(s: Scene, v: World)
    requires Sound(s) && Fewer(s.world, v)
    ensures Reached(v, s.places, s.spots) && PartnersBeside(v, s.spots) && Apart(v, s.paths)
    ensures v.tradeItems.Keys <= s.paths.Keys && s.spots.Keys == v.players.Keys
  {
    hide Invariant, PathsOk, PlacesOk;
  }

  /** The item and the partner of a player are within range. */
  predicate InTouch(w: World, places: Places, spots: Spots, p: nat)
    requires p in w.players
  {
    && (w.players[p].item.Some? ==> Near(places, spots, p, w.players[p].item.value))
    && (w.players[p].partner.Some? ==> Beside(spots, p, w.players[p].partner.value))
  }

  /** A player who has moved keeps a trade exactly as long as the item and the partner are within range. */
  lemma {:induction false} MovedExactly(w: World, places: Places, spots: Spots, p: nat)
    requires Invariant(w) && p in w.players
    ensures Invariant(Moved(w, places, spots, p)) && Fewer(w, Moved(w, places, spots, p))
    ensures Moved(w, places, spots, p) == if InTouch(w, places, spots, p) then w else Close(w, p)
    ensures var b := Moved(w, places, spots, p).players[p];
      && (b.item.Some? ==> Near(places, spots, p, b.item.value))
      && (b.partner.Some? ==> Beside(spots, p, b.partner.value))
  {
    assert Consistent(w, p);
    ClosingOne(w, p);
    ClosedIsIdle(w, p);
    hide Invariant, Consistent, Close, Near, Beside;
  }

  lemma {:induction false} ClosedIsIdle(w: World, p: nat)
    requires Invariant(w) && p in w.players
    ensures p in Close(w, p).players && Close(w, p).players[p].item == None && Close(w, p).players[p].partner == None
    ensures w.players[p].item.Some? ==> w.players[p].partner.Some?
  {
    assert Consistent(w, p);
  }

  lemma {:induction false} WalkKeepsSound(s: Scene, p: nat, spot: Position)
    requires Sound(s) && p in s.world.players
    ensures var spots := s.spots[p := spot];
      Sound(Scene(Moved(s.world, s.places, spots, p), s.paths, s.places, spots))
  {
    hide Invariant, Apart, PathsOk, PlacesOk, Reached, PartnersBeside, Moved, Fewer;
    var v := Moved(s.world, s.places, s.spots[p := spot], p);
    MovedExactly(s.world, s.places, s.spots[p := spot], p);
    FewerIsSound(s, v);
    WalkReach(s, v, p, spot);
    WalkBeside(s, v, p, spot);
  }

  lemma {:induction false} WalkReach(s: Scene, v: World, p: nat, spot: Position)
    requires Invariant(v) && Reached(v, s.places, s.spots) && p in v.players
    requires v.players[p].item.Some? ==> Near(s.places, s.spots[p := spot], p, v.players[p].item.value)
    ensures Reached(v, s.places, s.spots[p := spot])
  {
    forall x | x in v.tradeItems
      ensures Near(s.places, s.spots[p := spot], v.tradeItems[x], x)
    {
      assert Offered(v, x) && Near(s.places, s.spots, v.tradeItems[x], x);
    }
    hide Invariant;
  }

  lemma {:induction false} WalkBeside(s: Scene, v: World, p: nat, spot: Position)
    requires Invariant(v) && PartnersBeside(v, s.spots) && p in v.players
    requires v.players[p].partner.Some? ==> Beside(s.spots[p := spot], p, v.players[p].partner.value)
    ensures PartnersBeside(v, s.spots[p := spot])
  {
    var spots := s.spots[p := spot];
    forall r | r in v.players && v.players[r].partner.Some?
      ensures Beside(spots, r, v.players[r].partner.value)
    {
      assert Consistent(v, r) && Beside(s.spots, r, v.players[r].partner.value);
    }
    hide Invariant;
  }

  // ---- items that move --------------------------------------------------------------------------

  /** Whoever offers an item that is moved, or lies in what is moved, is told. */
  lemma {:induction false} OfferersAreTold(s: Scene, x: Item, leaving: seq<nat>, b: Item)
    requires Sound(s) && x in s.paths && ToldOfLeaving(s, x, leaving) && b in s.world.tradeItems && x in s.paths[b]
    ensures s.world.tradeItems[b] in leaving
  {
    assert s.places[x] == s.places[b];
    assert Near(s.places, s.spots, s.world.tradeItems[b], b);
    assert Offered(s.world, b);
    hide Invariant, Apart, PathsOk, PartnersBeside;
  }

  /** So nothing that leaves is traded any more. */
  lemma {:induction false} LeftUntraded(s: Scene, m: Move)
    requires Sound(s) && m.item in s.paths && m.from == Container(s.paths, m.item)
    requires (m.to.Some? ==> m.to.value in s.paths) && ToldOfLeaving(s, m.item, m.leaving)
    ensures forall b :: b in s.world.tradeItems && m.item in s.paths[b] ==> Noticed(s.world, s.paths, m, b)
    ensures StaysApart(s.world, s.paths, m)
  {
    forall b | b in s.world.tradeItems && m.item in s.paths[b]
      ensures s.world.tradeItems[b] in m.leaving
    {
      OfferersAreTold(s, m.item, m.leaving, b);
    }
    hide Invariant, Apart, Reached, PartnersBeside, ToldOfLeaving, Noticed;
    DepartureSeen(s.world, s.paths, m);
  }

  /** Items are still where their containers are, when one of them and all it holds were put elsewhere. */
  lemma {:induction false} PlacesRehung(paths: Paths, places: Places, m: Move, after: Paths, now: Places, place: Place)
    requires PathsOk(paths) && PlacesOk(paths, places) && Shifted(paths, after, m) && now.Keys == places.Keys
    requires m.to.Some? ==> place == places[m.to.value]
    requires forall y :: y in places ==> now[y] == if m.item in paths[y] then place else places[y]
    requires forall y :: y in paths && m.item in paths[y] ==> forall c :: c in after[y] ==>
      (c in paths[y] && c in paths && m.item in paths[c]) || (m.to.Some? && c in paths[m.to.value])
    ensures PlacesOk(after, now)
  {
    forall y, c | y in after && c in after[y]
      ensures c in now && now[c] == now[y]
    {
      if m.item !in paths[y] {
        assert after[y] == paths[y];
        Untouching(paths, y, c, m.item);
        HeldHere(paths, places, y, c);
      } else if c in paths[y] && c in paths && m.item in paths[c] {
        assert now[c] == place && now[y] == place;
      } else {
        Untouching(paths, m.to.value, c, m.item);
        HeldHere(paths, places, m.to.value, c);
      }
    }
    hide PathsOk, PlacesOk;
  }

  lemma {:induction false} HeldHere(paths: Paths, places: Places, y: Item, c: Item)
    requires PlacesOk(paths, places) && y in paths && c in paths && c in paths[y]
    ensures c in places && y in places && places[c] == places[y]
  {
  }

  lemma {:induction false} Untouching(paths: Paths, y: Item, c: Item, item: Item)
    requires PathsOk(paths) && y in paths && c in paths[y] && item !in paths[y]
    ensures c in paths && item !in paths[c]
  {
    PathEnds(paths, y, c);
    var n := |paths[y]| - |paths[c]|;
    assert paths[y] == paths[y][..n] + paths[y][n..];
  }

  lemma {:induction false} CarryKeepsSound(s: Scene, x: Item, goal: Goal, leaving: seq<nat>, arriving: seq<nat>, t: Scene)
    requires Sound(s) && CarryHappens(s, x, goal, leaving, arriving, t)
    ensures Sound(t)
  {
    var m := MoveOf(s, x, ContainerOf(goal), leaving, arriving);
    LeftUntraded(s, m);
    RehungOk(s.paths, m);
    MoveExactly(s.world, s.paths, t.paths, m);
    SeenExactly(s.world, s.paths, m);
    FewerIsSound(s, t.world);
    CarryPlaces(s, m, goal, t);
    CarryReach(s, m, t);
    hide Invariant, Apart, PathsOk, PlacesOk, Reached, PartnersBeside, Noticed, StaysApart, Seen, Fewer;
  }

  lemma {:induction false} CarryPlaces(s: Scene, m: Move, goal: Goal, t: Scene)
    requires PathsOk(s.paths) && PlacesOk(s.paths, s.places) && m.to == ContainerOf(goal)
    requires CarryHappens(s, m.item, goal, m.leaving, m.arriving, t)
    ensures PlacesOk(t.paths, t.places)
  {
    hide PathsOk, PlacesOk, Rehung, Seen, ToldOfLeaving, ToldOfArriving;
    RehungOk(s.paths, m);
    RehungBelow(s.paths, m);
    KeysOf(s);
    PlacesRehung(s.paths, s.places, m, t.paths, t.places, PlaceOf(s.places, goal));
  }

  lemma {:induction false} RehungBelow(paths: Paths, m: Move)
    requires PathsOk(paths) && m.item in paths && (m.to.Some? ==> m.to.value in paths)
    ensures forall y :: y in paths && m.item in paths[y] ==> forall c :: c in Rehung(paths, m.item, m.to)[y] ==>
      (c in paths[y] && c in paths && m.item in paths[c]) || (m.to.Some? && c in paths[m.to.value])
  {
    hide PathsOk, Rehung, UpTo;
    forall y | y in paths && m.item in paths[y]
      ensures forall c :: c in Rehung(paths, m.item, m.to)[y] ==>
        (c in paths[y] && c in paths && m.item in paths[c]) || (m.to.Some? && c in paths[m.to.value])
    {
      RehungIs(paths, m, y);
      UpToBelow(paths, m.item, y);
    }
  }

  lemma {:induction false} CarryReach(s: Scene, m: Move, t: Scene)
    requires Reached(s.world, s.places, s.spots) && Fewer(s.world, t.world) && s.places.Keys == s.paths.Keys
    requires m.item in s.paths && (m.to.Some? ==> m.to.value in s.paths) && t.spots == s.spots
    requires t.places.Keys == s.places.Keys && s.world.tradeItems.Keys <= s.paths.Keys
    requires forall y :: y in s.places && m.item !in s.paths[y] ==> t.places[y] == s.places[y]
    requires forall b :: b in t.world.tradeItems ==> m.item !in s.paths[b]
    ensures Reached(t.world, t.places, t.spots)
  {
  }

  // ---- items that come and go -------------------------------------------------------------------

  lemma {:induction false} AppearKeepsSound(s: Scene, x: Item, goal: Goal, arriving: seq<nat>, t: Scene)
    requires Sound(s) && AppearHappens(s, x, goal, arriving, t)
    ensures Sound(t)
  {
    hide Invariant, Apart, PathsOk, PlacesOk, Reached, PartnersBeside, Closings, Fewer, ToldOfArriving, ClosedFor;
    var up := if goal.Into? then s.paths[goal.c] else [];
    ClosingsExactly(s.world, arriving, {x} + set c | c in up);
    FewerIsSound(s, t.world);
    KeysOf(s);
    AppearPaths(s, x, goal, t);
    AppearTraded(s, x, t);
  }

  lemma {:induction false} AppearPaths(s: Scene, x: Item, goal: Goal, t: Scene)
    requires PathsOk(s.paths) && PlacesOk(s.paths, s.places) && x !in s.paths
    requires goal.Into? ==> goal.c in s.paths
    requires t.paths == s.paths[x := [x] + if goal.Into? then s.paths[goal.c] else []]
    requires goal.Into? ==> goal.c in s.places
    requires t.places == s.places[x := PlaceOf(s.places, goal)]
    ensures PathsOk(t.paths) && PlacesOk(t.paths, t.places)
  {
    hide PathsOk;
    KeysOf(s);
    AppearPathsOk(s.paths, x, ContainerOf(goal), t.paths);
    if goal.Into? { OnPath(s.paths, goal.c); }
    forall y, c | y in t.paths && c in t.paths[y]
      ensures c in t.places && t.places[c] == t.places[y]
    {
      if y != x {
        PathEnds(s.paths, y, c);
      } else if c != x {
        PathEnds(s.paths, goal.c, c);
      }
    }
  }

  lemma {:induction false} AppearPathsOk(paths: Paths, x: Item, to: Option<Item>, after: Paths)
    requires PathsOk(paths) && x !in paths && (to.Some? ==> to.value in paths)
    requires after == paths[x := [x] + if to.Some? then paths[to.value] else []]
    ensures PathsOk(after)
  {
    forall y | y in after
      ensures PathOk(after, y)
    {
      if y != x {
        OnPath(paths, y);
      } else if to.Some? {
        OnPath(paths, to.value);
      }
    }
  }

  lemma {:induction false} AppearTraded(s: Scene, x: Item, t: Scene)
    requires Reached(t.world, s.places, s.spots) && Apart(t.world, s.paths) && t.spots == s.spots
    requires t.world.tradeItems.Keys <= s.paths.Keys == s.places.Keys && x !in s.paths
    requires x in t.paths && t.paths.Keys == s.paths.Keys + {x} && t.places.Keys == s.places.Keys + {x}
    requires forall y :: y in s.paths ==> t.paths[y] == s.paths[y] && t.places[y] == s.places[y]
    ensures Reached(t.world, t.places, t.spots) && Apart(t.world, t.paths)
  {
  }

  lemma {:induction false} VanishKeepsSound(s: Scene, x: Item, leaving: seq<nat>, t: Scene)
    requires Sound(s) && VanishHappens(s, x, leaving, t)
    ensures Sound(t)
  {
    var m := MoveOf(s, x, None, leaving, []);
    LeftUntraded(s, m);
    ClosingsExactly(s.world, leaving, TouchedByLeaving(s.paths, m));
    NoneArrives(s.world, s.paths, m);
    FewerIsSound(s, t.world);
    VanishPaths(s, x, t);
    VanishTraded(s, x, t);
    hide Invariant, Apart, PathsOk, PlacesOk, Reached, PartnersBeside, Closings, Fewer, Noticed, ClosedFor;
  }

  lemma {:induction false} NoneArrives(w: World, paths: Paths, m: Move)
    requires m.item in paths && m.to == None && m.arriving == []
    ensures forall x :: x in w.tradeItems ==>
      (Noticed(w, paths, m, x) <==> ClosedFor(w, m.leaving, TouchedByLeaving(paths, m), x))
  {
  }

  lemma {:induction false} VanishPaths(s: Scene, x: Item, t: Scene)
    requires PathsOk(s.paths) && PlacesOk(s.paths, s.places)
    requires t.paths == (map y | y in s.paths && x !in s.paths[y] :: s.paths[y])
    requires t.places == (map y | y in s.places && y in s.paths && x !in s.paths[y] :: s.places[y])
    ensures PathsOk(t.paths) && PlacesOk(t.paths, t.places)
  {
    hide PathsOk;
    KeysOf(s);
    VanishPathsOk(s.paths, x, t.paths);
    forall y, c | y in t.paths && c in t.paths[y]
      ensures c in t.places && t.places[c] == t.places[y]
    {
      Untouching(s.paths, y, c, x);
    }
  }

  lemma {:induction false} VanishPathsOk(paths: Paths, x: Item, after: Paths)
    requires PathsOk(paths) && after == map y | y in paths && x !in paths[y] :: paths[y]
    ensures PathsOk(after)
  {
    forall y | y in after
      ensures PathOk(after, y)
    {
      OnPath(paths, y);
    }
  }

  lemma {:induction false} VanishTraded(s: Scene, x: Item, t: Scene)
    requires Reached(t.world, s.places, s.spots) && Apart(t.world, s.paths) && t.spots == s.spots
    requires t.world.tradeItems.Keys <= s.paths.Keys == s.places.Keys
    requires forall b :: b in t.world.tradeItems ==> x !in s.paths[b]
    requires t.paths == (map y | y in s.paths && x !in s.paths[y] :: s.paths[y])
    requires t.places == (map y | y in s.places && y in s.paths && x !in s.paths[y] :: s.places[y])
    ensures Reached(t.world, t.places, t.spots) && Apart(t.world, t.paths) && t.world.tradeItems.Keys <= t.paths.Keys
  {
  }

  // ---- every run --------------------------------------------------------------------------------

  /** Whatever happens, the scene stays sound. */
  lemma {:induction false} ActionKeepsSound(s: Scene, a: Action, t: Scene)
    requires Sound(s) && Happens(s, a, t)
    ensures Sound(t)
  {
    hide Sound, CarryHappens, AppearHappens, VanishHappens;
    match a
    case Trade(e) => TradeKeepsSound(s, e);
    case Walk(p, spot) =>
      WalkKeepsSound(s, p, spot);
      assert t == Scene(t.world, s.paths, s.places, t.spots);
    case Carry(x, goal, leaving, arriving) => CarryKeepsSound(s, x, goal, leaving, arriving, t);
    case Appear(x, goal, arriving) => AppearKeepsSound(s, x, goal, arriving, t);
    case Vanish(x, leaving) => VanishKeepsSound(s, x, leaving, t);
  }

  /** One action after the other. */
  ghost predicate Run(scenes: seq<Scene>, actions: seq<Action>) {
    && |scenes| == |actions| + 1
    && forall k :: 0 <= k < |actions| ==> Happens(scenes[k], actions[k], scenes[k + 1])
  }

  /** Nobody trades yet. */
  ghost predicate Opening(s: Scene) {
    && s.world == Fresh(s.spots.Keys) && PathsOk(s.paths) && PlacesOk(s.paths, s.places)
  }

  lemma {:induction false} OpeningIsSound(s: Scene)
    requires Opening(s)
    ensures Sound(s)
  {
    EveryRun(s.spots.Keys, []);
    assert TradeProtocol.Run(Fresh(s.spots.Keys), []) == Fresh(s.spots.Keys);
    hide Invariant, PathsOk, PlacesOk;
  }

  /** After every run, whatever happens in whichever order: no traded item lies in another one, every offer is within
    reach of the player who makes it, and partners are beside each other. */
  lemma {:induction false} EveryRunIsSound(scenes: seq<Scene>, actions: seq<Action>)
    requires Run(scenes, actions) && Opening(scenes[0])
    ensures forall k :: 0 <= k < |scenes| ==> Sound(scenes[k])
  {
    hide Happens, Sound, Opening;
    OpeningIsSound(scenes[0]);
    for k := 0 to |actions|
      invariant forall i :: 0 <= i <= k ==> Sound(scenes[i])
    {
      ActionKeepsSound(scenes[k], actions[k], scenes[k + 1]);
    }
  }

  // ---- the objects ------------------------------------------------------------------------------

  ghost function SceneOf(game: Game, places: Places, spots: Spots, S: set<Item>): Scene
    reads game, game.players.Values, S
  {
    Scene(game.View(), PathsOf(S), places, spots)
  }

  /** `Map::getSpectators` for the players within one square. */
  method GetSpectators(game: Game, spots: Spots, center: Position) returns (ps: seq<Player>)
    requires game.WellFormed() && spots.Keys == game.players.Keys
    ensures forall p :: p in ps ==> game.Known(p)
    ensures forall id :: id in Ids(ps) <==> id in spots && InRange(center, spots[id], 1, 1, 0)
  {
    ps := [];
    var left := spots.Keys;
    while left != {}
      invariant left <= spots.Keys && forall p :: p in ps ==> game.Known(p)
      invariant forall id :: id in Ids(ps) <==> id in spots && id !in left && InRange(center, spots[id], 1, 1, 0)
      decreases left
    {
      var id :| id in left;
      if InRange(center, spots[id], 1, 1, 0) {
        OneMoreId(ps, game.players[id]);
        ps := ps + [game.players[id]];
      }
      left := left - {id};
    }
  }

  lemma {:induction false} OneMoreId(ps: seq<Player>, p: Player)
    ensures Ids(ps + [p]) == Ids(ps) + [p.id]
  {
  }

  /** `Player::onCreatureMove` of a player who has moved to `spots[player.id]`. */
  method OnCreatureMove(game: Game, player: Player, places: Places, spots: Spots)
    requires game.WellFormed() && game.Known(player)
    modifies game, game.players.Values
    ensures game.WellFormed()
    ensures game.View() == Moved(old(game.View()), places, spots, player.id)
  {
    hide Close;
    game.Shown(player);
    ClosingInTransfer(game.View(), player.id);
    if player.tradeState == TRANSFER { return; }
    if player.tradeItem.Some? && !Near(places, spots, player.id, player.tradeItem.value) {
      game.CloseTrade(player);
      game.Shown(player);
    }
    if player.tradePartner != null && !Beside(spots, player.id, player.tradePartner.id) {
      game.CloseTrade(player);
    }
  }

  /** `playerRequestTrade` with the checks of its ranges; `allowed` is the verdict of sight and scripts. */
  method RequestTrade(game: Game, player: Player, tradePartner: Player, tradeItem: Item, allowed: bool, places: Places,
                      spots: Spots, ghost S: set<Item>)
    returns (ok: bool)
    requires game.WellFormed() && game.Known(player) && game.Known(tradePartner)
    requires F.Linkage(S) && tradeItem in S && game.tradeItems.Keys <= S == places.Keys
    requires spots.Keys == game.players.Keys
    requires places[tradeItem].OnPlayer? ==> places[tradeItem].holder == player.id
    modifies game, player, tradePartner
    ensures game.WellFormed()
    ensures Happens(old(SceneOf(game, places, spots, S)),
                    Trade(StartTrade(player.id, tradePartner.id, tradeItem, allowed && old(Few(S, tradeItem)))),
                    SceneOf(game, places, spots, S))
  {
    hide Disjoint, PathsOf, Few;
    game.Shown(player);
    game.Shown(tradePartner);
    TradableMeans(S, game.tradeItems.Keys, tradeItem);
    ok := false;
    if Beside(spots, player.id, tradePartner.id) && Near(places, spots, player.id, tradeItem) {
      ok := game.RequestTrade(player, tradePartner, tradeItem, allowed, S);
    }
  }

  /** The players who are told of what happens in a container. */
  method Onlookers(game: Game, places: Places, spots: Spots, c: Item) returns (ps: seq<Player>)
    requires game.WellFormed() && spots.Keys == game.players.Keys
    ensures forall p :: p in ps ==> game.Known(p)
    ensures forall id :: id in Ids(ps) <==> id in game.players && Near(places, spots, id, c)
  {
    var at := SpotOf(places, spots, c);
    ps := [];
    if at.Some? {
      ps := GetSpectators(game, spots, at.value);
    }
  }

  /** The players who are told when an item leaves; `viewers` are all who see the floor. */
  method Witnesses(game: Game, item: Item, viewers: seq<Player>, places: Places, spots: Spots, ghost S: set<Item>)
    returns (ps: seq<Player>)
    requires game.WellFormed() && spots.Keys == game.players.Keys && item in S && item in places && F.Linkage(S)
    requires item.parent == null && places[item].OnPlayer? ==> places[item].holder in game.players
    requires forall p :: p in viewers ==> game.Known(p)
    requires forall id :: id in game.players && item.parent == null && Near(places, spots, id, item) ==> id in Ids(viewers)
    ensures forall p :: p in ps ==> game.Known(p)
    ensures ToldOfLeaving(SceneOf(game, places, spots, S), item, Ids(ps))
  {
    hide Near, F.Linkage;
    ghost var s := SceneOf(game, places, spots, S);
    ParentIsContainer(S, item);
    assert |s.paths[item]| > 1 <==> item.parent != null;
    if item.parent != null {
      ps := Onlookers(game, places, spots, item);
    } else {
      match places[item]
      case OnPlayer(q) =>
        ps := [game.players[q]];
        assert Ids(ps) == [q];
      case Floor(_) => ps := viewers;
    }
  }

  /** The players who are told when an item has arrived. */
  method Arrivals(game: Game, to: F.Item?, place: Place, places: Places, spots: Spots, ghost S: set<Item>)
    returns (ps: seq<Player>)
    requires game.WellFormed() && spots.Keys == game.players.Keys
    ensures forall p :: p in ps ==> game.Known(p)
    ensures ToldOfArriving(SceneOf(game, places, spots, S), if to != null then Into(to) else Onto(place), Ids(ps))
  {
    hide Near;
    ps := [];
    if to != null {
      ps := Onlookers(game, places, spots, to);
    }
  }

  lemma {:induction false} SceneFacts(game: Game, types: F.Types, places: Places, spots: Spots, S: set<Item>)
    requires game.WellFormed() && F.Forest(types, S) && Sound(SceneOf(game, places, spots, S))
    ensures F.Linkage(S) && Invariant(game.View()) && game.tradeItems.Keys <= S
    ensures spots.Keys == game.players.Keys && places.Keys == S == PathsOf(S).Keys
  {
    KeysOf(SceneOf(game, places, spots, S));
    hide Invariant, PathsOk, PlacesOk, Reached, PartnersBeside, Apart;
  }

  lemma {:induction false} ParentIsContainer(S: set<Item>, item: Item)
    requires F.Linkage(S) && item in S
    ensures item in PathsOf(S) && Container(PathsOf(S), item) == AsOption(item.parent)
  {
    assert item.Linked(S);
    assert item.parent != null ==> item.parent.Linked(S);
  }

  /** The scene in which an item, with all it holds, is where the goal is. */
  ghost function Placed(s: Scene, x: Item, goal: Goal, world: World, paths: Paths): Scene
    requires goal.Into? ==> goal.c in s.places
  {
    Scene(world, paths, map y | y in s.places ::
      if y in s.paths && x in s.paths[y] then PlaceOf(s.places, goal) else s.places[y], s.spots)
  }

  lemma {:induction false} Carried(s: Scene, m: Move, goal: Goal, world: World, paths: Paths)
    requires m.item in s.paths && m.item in s.places && m.to == ContainerOf(goal)
    requires m.from == Container(s.paths, m.item)
    requires goal.Into? ==> goal.c in s.paths && goal.c in s.places && m.item !in s.paths[goal.c]
    requires ToldOfLeaving(s, m.item, m.leaving) && ToldOfArriving(s, goal, m.arriving)
    requires world == Seen(s.world, s.paths, m) && paths == Rehung(s.paths, m.item, m.to)
    ensures CarryHappens(s, m.item, goal, m.leaving, m.arriving, Placed(s, m.item, goal, world, paths))
  {
    hide ToldOfLeaving, ToldOfArriving, Seen, Rehung, Container;
  }

  /** An item is moved, and everybody is told who has to be: no traded item lies in another one afterwards. */
  method MoveInRange(game: Game, types: F.Types, item: Item, to: F.Item?, place: Place, viewers: seq<Player>,
                     places: Places, spots: Spots, ghost S: set<Item>)
    returns (ghost a: Action, ghost t: Scene)
    requires game.WellFormed() && F.Forest(types, S) && item in S && Sound(SceneOf(game, places, spots, S))
    requires to != null ==> to in S && to.isContainer && item !in to.path
    requires item.parent == null && item in places && places[item].OnPlayer? ==> places[item].holder in game.players
    requires forall p :: p in viewers ==> game.Known(p)
    requires forall id :: id in game.players && item.parent == null && Near(places, spots, id, item) ==> id in Ids(viewers)
    modifies game, game.players.Values, S
    ensures game.WellFormed() && F.Forest(types, S) && item.parent == to
    ensures t.world == game.View() && t.paths == PathsOf(S) && t.spots == spots
    ensures a.Carry? && a.item == item && a.goal == if to != null then Into(to) else Onto(place)
    ensures Happens(old(SceneOf(game, places, spots, S)), a, t) && Sound(t)
  {
    hide Invariant, PathsOk, PlacesOk, Reached, PartnersBeside, Apart, Sound, F.Forest, F.Linkage, Near, ToldOfLeaving,
         CarryHappens, Game.WellFormed, Game.View, Rehung, Seen, Placed, PathsOf, Container, StaysApart;
    ghost var s, goal := SceneOf(game, places, spots, S), if to != null then Into(to) else Onto(place);
    SceneFacts(game, types, places, spots, S);
    PlacesHere(types, S, item, to);
    ParentIsContainer(S, item);
    var leaving := Witnesses(game, item, viewers, places, spots, S);
    var arriving := Arrivals(game, to, place, places, spots, S);
    ghost var m := MoveItem(game, types, item, to, leaving, arriving, S);
    Carried(s, m, goal, game.View(), PathsOf(S));
    t := Placed(s, item, goal, game.View(), PathsOf(S));
    a := Carry(item, goal, m.leaving, m.arriving);
    CarryKeepsSound(s, item, goal, m.leaving, m.arriving, t);
    PlacedIs(s, item, goal, game.View(), PathsOf(S));
  }

  lemma {:induction false} PlacedIs(s: Scene, x: Item, goal: Goal, world: World, paths: Paths)
    requires goal.Into? ==> goal.c in s.places
    ensures var t := Placed(s, x, goal, world, paths); t.world == world && t.paths == paths && t.spots == s.spots
  {
  }
}
