/** Containers that players hold open (src/game.cpp `internalGetThing`, `playerMoveUpContainer`; src/actions.cpp `useItem`;
  src/player.cpp `autoCloseContainers`, `postAddNotification`, `postRemoveNotification`).

  A player can name an item on a floor, an item that the player carries, and one in a container that the
  player holds open.  Over every run the open containers of a player are within one square, and with no
  other player: so nobody can ask for a trade of an item that somebody else carries, which the range rule of
  trades takes for granted. */
module OpenContainers {
  import opened Wrappers
  import opened Positions
  import opened TradeProtocol
  import opened TradedItems
  import opened TradeRange
  import F = ItemForest

  /** The containers that a player holds open, by the numbers of their windows, and those of all players. */
  type Windows = map<nat, Item>

  type Open = map<nat, Windows>

  /** A scene, and what is open in it. */
  datatype Table = Table(scene: Scene, open: Open)

  /** What `internalGetThing` can return: an item that the player carries, in an open container, or on a floor. */
  ghost predicate AtHand(t: Table, p: nat, x: Item) {
    var s := t.scene;
    && x in s.paths && x in s.places
    && match Container(s.paths, x)
       case Some(c) => s.places[x] == OnPlayer(p) || (p in t.open && c in t.open[p].Values)
       case None => s.places[x].Floor? || s.places[x] == OnPlayer(p)
  }

  ghost predicate OpenOk(s: Scene, open: Open) {
    forall p, k :: p in open && k in open[p] ==> AtReach(s.places, s.spots, p, open[p][k])
  }

  /** What holds after every run. */
  ghost predicate InOrder(t: Table) {
    Sound(t.scene) && OpenOk(t.scene, t.open)
  }

  /** What happens in the scene, with the players who are told afterwards that an item has left; a player uses a container,
    goes from an open container to the one that it lies in, or closes one. */
  datatype Act =
    | Play(a: Action, told: set<nat>)
    | Use(p: nat, k: nat, c: Item)
    | MoveUp(p: nat, k: nat)
    | Shut(p: nat, k: nat)

  // ---- what is closed ---------------------------------------------------------------------------

  /** `autoCloseContainers`: `x` and what lies in it is closed. */
  ghost function AutoClosed(paths: Paths, cs: Windows, x: Item): Windows {
    map k | k in cs && !(cs[k] in paths && x in paths[cs[k]]) :: cs[k]
  }

  /** `postAddNotification` of a player who has moved: all that is out of range is closed. */
  ghost function AfterWalk(s: Scene, p: nat, cs: Windows): Windows {
    Rest(s.paths, cs, FarAway(s, p, cs))
  }

  ghost function Rest(paths: Paths, cs: Windows, ds: set<Item>): Windows {
    map k | k in cs && !Through(paths, cs[k], ds) :: cs[k]
  }

  ghost function FarAway(s: Scene, p: nat, cs: Windows): set<Item> {
    set c | c in cs.Values && !Near(s.places, s.spots, p, c)
  }

  /** One of the containers is `c`, or holds it. */
  ghost predicate Through(paths: Paths, c: Item, ds: set<Item>) {
    c in paths && exists d :: d in ds && d in paths[c]
  }

  /** `postRemoveNotification`: a player who is told closes what is no longer within reach. */
  ghost function AfterLeaving(s: Scene, open: Open, x: Item, told: set<nat>): Open {
    map p | p in open :: if p in told then AfterTold(s, p, open[p], x) else open[p]
  }

  ghost function AfterTold(s: Scene, p: nat, cs: Windows, x: Item): Windows {
    if AtReach(s.places, s.spots, p, x) then cs else AutoClosed(s.paths, cs, x)
  }

  /** Everything in an item that has gone out of being is closed. */
  ghost function AfterVanishing(paths: Paths, open: Open, x: Item, told: set<nat>): Open {
    map p | p in open :: if p in told then AutoClosed(paths, open[p], x) else open[p]
  }

  /** Who is told afterwards that an item has left a player, or a floor with all that lies on it. */
  ghost predicate ToldAfter(s: Scene, x: Item, told: set<nat>)
    requires x in s.places
  {
    match s.places[x]
    case OnPlayer(q) => told == {q}
    case Floor(_) => forall p :: p in s.world.players && Near(s.places, s.spots, p, x) ==> p in told
  }

  // ---- what can happen --------------------------------------------------------------------------

  /** The checks of `playerRequestTrade` for an item that the player can name. */
  ghost predicate MayRequest(t: Table, p: nat, q: nat, x: Item) {
    && AtHand(t, p, x) && Beside(t.scene.spots, p, q) && Near(t.scene.places, t.scene.spots, p, x)
    && Disjoint(t.scene.world.tradeItems.Keys, x, t.scene.paths)
  }

  /** One action in the scene; of whom an item is that is offered is not looked at. */
  ghost predicate Played(t: Table, a: Action, s: Scene) {
    if a.Trade? && a.e.StartTrade? then
      s == t.scene.(world := Step(t.scene.world, a.e.(clear := a.e.clear && MayRequest(t, a.e.p, a.e.q, a.e.item))))
    else Happens(t.scene, a, s)
  }

  /** Which containers are still open then. */
  ghost predicate KeptOpen(t: Table, a: Action, told: set<nat>, u: Table) {
    match a
    case Trade(_) => u.open == t.open
    case Walk(p, _) => u.open == if p in t.open then t.open[p := AfterWalk(u.scene, p, t.open[p])] else t.open
    case Carry(x, _, _, _) =>
      x in t.scene.places && ToldAfter(t.scene, x, told) && u.open == AfterLeaving(u.scene, t.open, x, told)
    case Appear(_, _, _) => u.open == t.open
    case Vanish(x, _) =>
      x in t.scene.places && ToldAfter(t.scene, x, told) && u.open == AfterVanishing(t.scene.paths, t.open, x, told)
  }

  /** A container that is used is at hand, and within one square if it is on a floor. */
  ghost predicate MayUse(t: Table, p: nat, c: Item) {
    && AtHand(t, p, c) && p in t.scene.spots
    && (t.scene.places[c].Floor? && Container(t.scene.paths, c) == None ==> Near(t.scene.places, t.scene.spots, p, c))
  }

  /** `useItem` closes the container if it is open, in the first window that shows it, and else opens it in window `k`. */
  ghost predicate Used(cs: Windows, k: nat, c: Item, after: Windows) {
    if c in cs.Values then
      exists j :: j in cs && cs[j] == c && (forall i :: i in cs && cs[i] == c ==> j <= i) && after == cs - {j}
    else after == Shown(cs, k, c)
  }

  /** `addContainer` */
  function Shown(cs: Windows, k: nat, c: Item): Windows {
    if k <= 0xF then cs[k := c] else cs
  }

  ghost predicate Acted(t: Table, act: Act, u: Table) {
    match act
    case Play(a, told) => Played(t, a, u.scene) && KeptOpen(t, a, told, u)
    case Use(p, k, c) =>
      && p in t.open && MayUse(t, p, c) && u.scene == t.scene && u.open.Keys == t.open.Keys
      && Used(t.open[p], k, c, u.open[p]) && u.open == t.open[p := u.open[p]]
    case MoveUp(p, k) =>
      && p in t.open && k in t.open[p] && t.open[p][k] in t.scene.paths
      && var c := Container(t.scene.paths, t.open[p][k]);
         u == if c.Some? then t.(open := t.open[p := Shown(t.open[p], k, c.value)]) else t
    case Shut(p, k) => p in t.open && u == t.(open := t.open[p := t.open[p] - {k}])
  }

  // ---- every act --------------------------------------------------------------------------------

  lemma {:induction false} SamePlace(s: Scene, x: Item)
    requires PathsOk(s.paths) && PlacesOk(s.paths, s.places) && x in s.paths && Container(s.paths, x).Some?
    ensures var c := Container(s.paths, x).value; c in s.places && x in s.places && s.places[c] == s.places[x]
  {
    OnPath(s.paths, x);
    hide PathsOk;
  }

  /** Nothing that another player carries is at hand. */
  lemma {:induction false} AtHandIsOwn(t: Table, p: nat, x: Item)
    requires InOrder(t) && AtHand(t, p, x)
    ensures t.scene.places[x].OnPlayer? ==> t.scene.places[x].holder == p
  {
    hide Invariant, Apart, PathsOk, PlacesOk, Reached, PartnersBeside, Near, Container;
    if Container(t.scene.paths, x).Some? { SamePlace(t.scene, x); }
  }

  /** So a request of an item at hand, checked for its ranges alone, is a step of the scene. */
  lemma {:induction false} RequestHappens(t: Table, e: Event, s: Scene)
    requires InOrder(t) && e.StartTrade? && Played(t, Trade(e), s)
    ensures Happens(t.scene, Trade(e.(clear := e.clear && AtHand(t, e.p, e.item))), s)
  {
    if AtHand(t, e.p, e.item) { AtHandIsOwn(t, e.p, e.item); }
    hide InOrder, AtHand, Beside, Near, Disjoint;
    assert MayRequest(t, e.p, e.q, e.item) <==> AtHand(t, e.p, e.item) && MayOffer(t.scene, e.p, e.q, e.item);
  }

  /** And the other way round. */
  lemma {:induction false} HappensPlayed(t: Table, e: Event, s: Scene)
    requires InOrder(t) && e.StartTrade? && AtHand(t, e.p, e.item) && Happens(t.scene, Trade(e), s)
    ensures Played(t, Trade(e), s)
  {
    AtHandIsOwn(t, e.p, e.item);
    hide InOrder, AtHand, Beside, Near, Disjoint;
    assert MayRequest(t, e.p, e.q, e.item) <==> MayOffer(t.scene, e.p, e.q, e.item);
  }

  /** The action of the scene that an act comes to. */
  ghost function InScene(t: Table, a: Action): Action {
    if a.Trade? && a.e.StartTrade? then Trade(a.e.(clear := a.e.clear && AtHand(t, a.e.p, a.e.item))) else a
  }

  lemma {:induction false} PlayedHappens(t: Table, a: Action, s: Scene)
    requires InOrder(t) && Played(t, a, s)
    ensures Happens(t.scene, InScene(t, a), s)
  {
    hide InOrder, Happens, AtHand;
    if a.Trade? && a.e.StartTrade? { RequestHappens(t, a.e, s); }
  }

  lemma {:induction false} WalkKeepsOpen(t: Table, p: nat, spot: Position, u: Table)
    requires InOrder(t) && Happens(t.scene, Walk(p, spot), u.scene) && KeptOpen(t, Walk(p, spot), {}, u)
    ensures OpenOk(u.scene, u.open)
  {
    var s := u.scene;
    forall q, k | q in u.open && k in u.open[q]
      ensures AtReach(s.places, s.spots, q, u.open[q][k])
    {
      var c := u.open[q][k];
      assert k in t.open[q] && c == t.open[q][k] && AtReach(t.scene.places, t.scene.spots, q, c);
      if q == p {
        OnPath(s.paths, c);
        LeftNear(s, p, t.open[p], k);
      }
    }
    hide Invariant, Apart, PathsOk, PlacesOk, Reached, PartnersBeside, Moved, AfterWalk;
  }

  lemma {:induction false} LeftNear(s: Scene, p: nat, cs: Windows, k: nat)
    requires k in AfterWalk(s, p, cs) && cs[k] in s.paths && cs[k] in s.paths[cs[k]]
    ensures Near(s.places, s.spots, p, cs[k])
  {
    if !Near(s.places, s.spots, p, cs[k]) { FarIsClosed(s, p, cs, k); }
    hide Near, Through, FarAway;
  }

  lemma {:induction false} FarIsClosed(s: Scene, p: nat, cs: Windows, k: nat)
    requires k in cs && cs[k] in s.paths && cs[k] in s.paths[cs[k]] && !Near(s.places, s.spots, p, cs[k])
    ensures Through(s.paths, cs[k], FarAway(s, p, cs))
  {
    hide Near;
    assert cs[k] in cs.Values;
  }

  lemma {:induction false} StillInside(paths: Paths, x: Item, to: Option<Item>, c: Item)
    requires PathsOk(paths) && x in paths && c in paths && x in paths[c] && (to.Some? ==> to.value in paths)
    ensures x in Rehung(paths, x, to)[c]
  {
    PathEnds(paths, c, x);
    OnPath(paths, x);
    hide PathsOk;
    var n := |paths[c]| - |paths[x]|;
    assert paths[c][n..][0] == paths[c][n] == x;
    assert UpTo(paths, x, c)[n] == x;
  }

  /** Whoever holds something open that leaves is told afterwards. */
  lemma {:induction false} HolderIsTold(s: Scene, x: Item, told: set<nat>, p: nat, c: Item)
    requires PlacesOk(s.paths, s.places) && s.spots.Keys == s.world.players.Keys && x in s.places && ToldAfter(s, x, told)
    requires AtReach(s.places, s.spots, p, c) && c in s.paths && x in s.paths[c]
    ensures s.places[c] == s.places[x] && p in told
  {
  }

  lemma {:induction false} CarryKeepsOpen(t: Table, a: Action, told: set<nat>, u: Table)
    requires InOrder(t) && a.Carry? && Happens(t.scene, a, u.scene) && KeptOpen(t, a, told, u)
    ensures OpenOk(u.scene, u.open)
  {
    hide Sound, AtReach, ToldAfter, AfterLeaving, CarryHappens;
    forall p, k | p in u.open && k in u.open[p]
      ensures AtReach(u.scene.places, u.scene.spots, p, u.open[p][k])
    {
      LeftOpen(u.scene, t.open, a.item, told, p, k);
      CarriedReach(t.scene, a, u.scene, told, p, u.open[p][k]);
    }
  }

  lemma {:induction false} LeftOpen(s: Scene, open: Open, x: Item, told: set<nat>, p: nat, k: nat)
    requires p in AfterLeaving(s, open, x, told) && k in AfterLeaving(s, open, x, told)[p]
    ensures p in open && k in open[p] && AfterLeaving(s, open, x, told)[p][k] == open[p][k]
    ensures p in told && open[p][k] in s.paths && x in s.paths[open[p][k]] ==> AtReach(s.places, s.spots, p, x)
  {
  }

  lemma {:induction false} CarriedReach(s: Scene, a: Action, r: Scene, told: set<nat>, p: nat, c: Item)
    requires Sound(s) && a.Carry? && Happens(s, a, r) && a.item in s.places && ToldAfter(s, a.item, told)
    requires AtReach(s.places, s.spots, p, c)
    requires p in told && c in r.paths && a.item in r.paths[c] ==> AtReach(r.places, r.spots, p, a.item)
    ensures AtReach(r.places, r.spots, p, c)
  {
    hide Invariant, Apart, PathsOk, Reached, PartnersBeside, Rehung, Seen, ToldOfLeaving, ToldOfArriving, InRange, ToldAfter;
    assert c in s.paths;
    OnPath(s.paths, a.item);
    if a.item in s.paths[c] {
      StillInside(s.paths, a.item, ContainerOf(a.goal), c);
      HolderIsTold(s, a.item, told, p, c);
    }
  }

  lemma {:induction false} VanishKeepsOpen(t: Table, a: Action, told: set<nat>, u: Table)
    requires InOrder(t) && a.Vanish? && Happens(t.scene, a, u.scene) && KeptOpen(t, a, told, u)
    ensures OpenOk(u.scene, u.open)
  {
    hide Invariant, Apart, PathsOk, Reached, PartnersBeside, ToldOfLeaving, Closings, InRange, ToldAfter;
    var s, x := t.scene, a.item;
    forall p, k | p in u.open && k in u.open[p]
      ensures AtReach(u.scene.places, u.scene.spots, p, u.open[p][k])
    {
      var c := t.open[p][k];
      if c in s.paths && x in s.paths[c] {
        HolderIsTold(s, x, told, p, c);
        assert false;
      }
    }
  }

  /** What happens in the scene leaves open only what is within reach. */
  lemma {:induction false} PlayKeepsOpen(t: Table, a: Action, told: set<nat>, u: Table)
    requires InOrder(t) && Happens(t.scene, InScene(t, a), u.scene) && KeptOpen(t, a, told, u)
    ensures OpenOk(u.scene, u.open)
  {
    match a
    case Trade(e) =>
      hide Sound, AtReach, AtHand, Judged;
      assert u.scene.places == t.scene.places && u.scene.spots == t.scene.spots;
    case Walk(p, spot) =>
      hide InOrder, Happens;
      WalkKeepsOpen(t, p, spot, u);
    case Carry(x, goal, leaving, arriving) =>
      hide InOrder, Happens;
      CarryKeepsOpen(t, a, told, u);
    case Appear(x, goal, arriving) => AppearKeepsOpen(t, a, u);
    case Vanish(x, leaving) =>
      hide InOrder, Happens;
      VanishKeepsOpen(t, a, told, u);
  }

  lemma {:induction false} AppearKeepsOpen(t: Table, a: Action, u: Table)
    requires InOrder(t) && a.Appear? && Happens(t.scene, a, u.scene) && u.open == t.open
    ensures OpenOk(u.scene, u.open)
  {
    hide Invariant, Apart, PathsOk, Reached, PartnersBeside, ToldOfArriving;
  }

  lemma {:induction false} UsedIsNear(t: Table, p: nat, c: Item)
    requires InOrder(t) && MayUse(t, p, c)
    ensures AtReach(t.scene.places, t.scene.spots, p, c)
  {
    AtHandIsOwn(t, p, c);
    hide Invariant, Apart, PathsOk, PlacesOk, Reached, PartnersBeside;
    if Container(t.scene.paths, c).Some? { SamePlace(t.scene, c); }
    hide Container;
  }

  lemma {:induction false} OuterIsNear(t: Table, p: nat, k: nat)
    requires InOrder(t) && p in t.open && k in t.open[p] && t.open[p][k] in t.scene.paths
    requires Container(t.scene.paths, t.open[p][k]).Some?
    ensures AtReach(t.scene.places, t.scene.spots, p, Container(t.scene.paths, t.open[p][k]).value)
  {
    SamePlace(t.scene, t.open[p][k]);
    hide Sound, Container;
  }

  /** Whatever happens, the table stays in order. */
  lemma {:induction false} ActKeepsOrder(t: Table, act: Act, u: Table)
    requires InOrder(t) && Acted(t, act, u)
    ensures InOrder(u)
    ensures if act.Play? then Happens(t.scene, InScene(t, act.a), u.scene) else u.scene == t.scene
  {
    hide Sound, Happens, Played, KeptOpen, MayUse, AtReach;
    match act
    case Play(a, told) =>
      PlayedHappens(t, a, u.scene);
      ActionKeepsSound(t.scene, InScene(t, a), u.scene);
      PlayKeepsOpen(t, a, told, u);
    case Use(p, k, c) => UsedIsNear(t, p, c);
    case MoveUp(p, k) => if Container(t.scene.paths, t.open[p][k]).Some? { OuterIsNear(t, p, k); }
    case Shut(p, k) =>
  }

  /** One act after the other, from a scene in which nobody trades and nothing is open. */
  ghost predicate History(tables: seq<Table>, acts: seq<Act>) {
    && |tables| == |acts| + 1
    && (forall k :: 0 <= k < |acts| ==> Acted(tables[k], acts[k], tables[k + 1]))
    && Opening(tables[0].scene) && forall p :: p in tables[0].open ==> tables[0].open[p] == map[]
  }

  /** After every run, whoever does what in whichever order: what a player holds open is within one square and with no other
    player, and the scenes passed through are those of a run of the range rule. */
  lemma {:induction false} EveryHistoryIsInOrder(tables: seq<Table>, acts: seq<Act>)
    requires History(tables, acts)
    ensures forall k :: 0 <= k < |tables| ==> InOrder(tables[k])
    ensures forall k :: 0 <= k < |acts| ==>
      if acts[k].Play? then Happens(tables[k].scene, InScene(tables[k], acts[k].a), tables[k + 1].scene)
      else tables[k + 1].scene == tables[k].scene
  {
    hide Happens, Sound, Opening, Acted, AtReach, InScene;
    OpeningIsSound(tables[0].scene);
    for k := 0 to |acts|
      invariant forall i :: 0 <= i <= k ==> InOrder(tables[i])
      invariant forall i :: 0 <= i < k ==>
        if acts[i].Play? then Happens(tables[i].scene, InScene(tables[i], acts[i].a), tables[i + 1].scene)
        else tables[i + 1].scene == tables[i].scene
    {
      ActKeepsOrder(tables[k], acts[k], tables[k + 1]);
    }
  }

  // ---- the objects ------------------------------------------------------------------------------

  lemma {:induction false} TableFacts(game: Game, places: Places, spots: Spots, open: Open, S: set<Item>, p: nat, x: Item)
    requires InOrder(Table(SceneOf(game, places, spots, S), open))
    requires AtHand(Table(SceneOf(game, places, spots, S), open), p, x)
    ensures x in S && game.tradeItems.Keys <= S == places.Keys && spots.Keys == game.players.Keys
  {
    KeysOf(SceneOf(game, places, spots, S));
    hide Invariant, PathsOk, PlacesOk, Reached, PartnersBeside, Apart, Container;
  }

  /** `playerRequestTrade` for an item that `internalGetThing` has returned. */
  method PlayerRequestTrade(game: Game, player: Player, tradePartner: Player, tradeItem: Item, allowed: bool,
                            places: Places, spots: Spots, ghost open: Open, ghost S: set<Item>)
    returns (ok: bool)
    requires game.WellFormed() && game.Known(player) && game.Known(tradePartner) && F.Linkage(S)
    requires InOrder(Table(SceneOf(game, places, spots, S), open))
    requires AtHand(Table(SceneOf(game, places, spots, S), open), player.id, tradeItem)
    modifies game, player, tradePartner
    ensures game.WellFormed()
    ensures Acted(old(Table(SceneOf(game, places, spots, S), open)),
                  Play(Trade(StartTrade(player.id, tradePartner.id, tradeItem, allowed && old(Few(S, tradeItem)))), {}),
                  Table(SceneOf(game, places, spots, S), open))
  {
    hide InOrder, AtHand, Near, Disjoint, PathsOf, Few, F.Linkage, Happens, Played, Game.View;
    ghost var t := Table(SceneOf(game, places, spots, S), open);
    AtHandIsOwn(t, player.id, tradeItem);
    TableFacts(game, places, spots, open, S, player.id, tradeItem);
    ghost var e := StartTrade(player.id, tradePartner.id, tradeItem, allowed && Few(S, tradeItem));
    ok := RequestTrade(game, player, tradePartner, tradeItem, allowed, places, spots, S);
    HappensPlayed(t, e, SceneOf(game, places, spots, S));
  }

  lemma {:induction false} AllListed(S: set<Item>, cs: Windows, container: Item, closeList: seq<nat>)
    requires cs.Values <= S
    requires forall k :: k in closeList <==> k in cs && container in cs[k].path
    ensures cs - (set k | k in closeList[..0]) == cs
    ensures cs - (set k | k in closeList) == AutoClosed(PathsOf(S), cs, container)
  {
    assert forall k :: k in cs ==> cs[k] in cs.Values;
  }

  ghost function Elements(s: seq<Item>): set<Item> {
    set c | c in s
  }

  lemma {:induction false} OneMoreElement(s: seq<Item>, d: Item)
    ensures Elements(s + [d]) == Elements(s) + {d}
  {
  }

  lemma {:induction false} NoneClosed(paths: Paths, cs: Windows)
    ensures Rest(paths, cs, {}) == cs
  {
  }

  lemma {:induction false} OneMoreClosed(paths: Paths, cs: Windows, ds: set<Item>, d: Item)
    ensures AutoClosed(paths, Rest(paths, cs, ds), d) == Rest(paths, cs, ds + {d})
  {
  }

  /** Nothing lies in what is no container. */
  lemma {:induction false} NothingInside(S: set<Item>, cs: Windows, thing: Item)
    requires F.Linkage(S) && cs.Values <= S && thing in S && !thing.isContainer
    requires forall c :: c in cs.Values ==> c.isContainer
    ensures AutoClosed(PathsOf(S), cs, thing) == cs
  {
    forall k | k in cs
      ensures thing !in cs[k].path
    {
      assert cs[k] in cs.Values;
      if thing in cs[k].path { OnlyContainersHold(S, thing, cs[k]); }
    }
    hide F.Linkage;
  }

  /** The containers that one player holds open. */
  class OpenContainerMap {
    var openContainers: Windows

    predicate Valid()
      reads this
    {
      forall cid :: cid in openContainers ==> cid <= 0xF
    }

    constructor ()
      ensures Valid() && openContainers == map[]
    {
      openContainers := map[];
    }

    /** `Player::addContainer` */
    method AddContainer(cid: nat, container: Item)
      requires Valid()
      modifies this
      ensures Valid() && openContainers == Shown(old(openContainers), cid, container)
    {
      if cid > 0xF { return; }
      openContainers := openContainers[cid := container];
    }

    /** `Player::closeContainer` */
    method CloseContainer(cid: nat)
      requires Valid()
      modifies this
      ensures Valid() && openContainers == old(openContainers) - {cid}
    {
      if cid !in openContainers { return; }
      openContainers := openContainers - {cid};
    }

    /** `Player::getContainerID`: the first window that shows the container. */
    method GetContainerID(container: Item) returns (cid: Option<nat>)
      requires Valid()
      ensures cid == None <==> container !in openContainers.Values
      ensures cid.Some? ==> cid.value in openContainers && openContainers[cid.value] == container
      ensures cid.Some? ==> forall i :: i in openContainers && openContainers[i] == container ==> cid.value <= i
    {
      for i := 0 to 0x10
        invariant forall j :: j in openContainers && j < i ==> openContainers[j] != container
      {
        if i in openContainers && openContainers[i] == container {
          return Some(i);
        }
      }
      cid := None;
    }

    /** The part of `Actions::useItem` that opens or closes a container. */
    method UseContainer(index: nat, container: Item)
      requires Valid()
      modifies this
      ensures Valid() && Used(old(openContainers), index, container, openContainers)
    {
      var oldContainerId := GetContainerID(container);
      match oldContainerId
      case None => AddContainer(index, container);
      case Some(cid) => CloseContainer(cid);
    }

    /** `Game::playerMoveUpContainer` */
    method MoveUpContainer(cid: nat, ghost S: set<Item>)
      requires Valid() && F.Linkage(S) && openContainers.Values <= S
      modifies this
      ensures Valid()
      ensures openContainers ==
        if cid in old(openContainers) && Container(PathsOf(S), old(openContainers)[cid]).Some?
        then Shown(old(openContainers), cid, Container(PathsOf(S), old(openContainers)[cid]).value) else old(openContainers)
    {
      if cid !in openContainers { return; }
      var container := openContainers[cid];
      ParentIsContainer(S, container);
      hide Container, PathsOf;
      if container.parent == null { return; }
      AddContainer(cid, container.parent);
    }

    /** Is the container this one, or does it lie in it? */
    method LiesIn(tmpContainer: Item, container: Item, ghost S: set<Item>) returns (b: bool)
      requires F.Linkage(S) && tmpContainer in S
      ensures b <==> container in tmpContainer.path
    {
      var c: F.Item? := tmpContainer;
      while c != null
        invariant c != null ==> c in S
        invariant container in tmpContainer.path <==> c != null && container in c.path
        decreases if c == null then 0 else |c.path|
      {
        assert c.Linked(S);
        assert c.parent != null ==> c.parent.Linked(S);
        if c == container { return true; }
        c := c.parent;
      }
      b := false;
    }

    /** `Player::autoCloseContainers` */
    method AutoCloseContainers(container: Item, ghost S: set<Item>)
      requires Valid() && F.Linkage(S) && openContainers.Values <= S
      modifies this
      ensures Valid() && openContainers == AutoClosed(PathsOf(S), old(openContainers), container)
    {
      hide F.Linkage;
      var closeList: seq<nat> := [];
      for cid := 0 to 0x10
        modifies {}
        invariant forall k :: k in closeList <==>
          k < cid && k in openContainers && container in openContainers[k].path
      {
        if cid in openContainers {
          assert openContainers[cid] in openContainers.Values;
          var held := LiesIn(openContainers[cid], container, S);
          if held { closeList := closeList + [cid]; }
        }
      }
      ghost var cs := openContainers;
      AllListed(S, cs, container, closeList);
      for i := 0 to |closeList|
        invariant Valid() && openContainers == cs - (set k | k in closeList[..i])
      {
        CloseContainer(closeList[i]);
      }
      assert closeList[..|closeList|] == closeList;
    }

    /** The containers that are out of range, in the order of their windows. */
    method OutOfRange(player: nat, places: Places, spots: Spots, ghost s: Scene) returns (containers: seq<Item>)
      requires Valid() && s.places == places && s.spots == spots
      ensures Elements(containers) == FarAway(s, player, openContainers)
    {
      hide Near;
      containers := [];
      for cid := 0 to 0x10
        invariant forall c :: c in containers <==>
          exists k :: k in openContainers && k < cid && openContainers[k] == c && !Near(places, spots, player, c)
      {
        if cid in openContainers && !Near(places, spots, player, openContainers[cid]) {
          containers := containers + [openContainers[cid]];
        }
      }
    }

    /** `Player::postAddNotification` when the player has moved. */
    method PostAddNotification(player: nat, places: Places, spots: Spots, ghost s: Scene, ghost S: set<Item>)
      requires Valid() && F.Linkage(S) && openContainers.Values <= S
      requires s.paths == PathsOf(S) && s.places == places && s.spots == spots
      modifies this
      ensures Valid() && openContainers == AfterWalk(s, player, old(openContainers))
    {
      hide F.Linkage, Near, FarAway, Rest, PathsOf, Through;
      var containers := OutOfRange(player, places, spots, s);
      ghost var cs := openContainers;
      NoneClosed(s.paths, cs);
      assert Elements(containers[..0]) == {};
      for i := 0 to |containers|
        invariant Valid() && openContainers.Values <= S
        invariant openContainers == Rest(s.paths, cs, Elements(containers[..i]))
      {
        OneMoreClosed(s.paths, cs, Elements(containers[..i]), containers[i]);
        assert containers[..i + 1] == containers[..i] + [containers[i]];
        OneMoreElement(containers[..i], containers[i]);
        AutoCloseContainers(containers[i], S);
      }
      assert containers[..|containers|] == containers;
    }

    /** `Player::postRemoveNotification` */
    method PostRemoveNotification(player: nat, thing: Item, places: Places, spots: Spots, ghost s: Scene,
                                  ghost S: set<Item>)
      requires Valid() && F.Linkage(S) && openContainers.Values <= S && thing in S
      requires s.paths == PathsOf(S) && s.places == places && s.spots == spots
      requires forall c :: c in openContainers.Values ==> c.isContainer
      modifies this
      ensures Valid() && openContainers == AfterTold(s, player, old(openContainers), thing)
    {
      if thing.isContainer {
        if !AtReach(places, spots, player, thing) {
          AutoCloseContainers(thing, S);
        }
      } else {
        NothingInside(S, openContainers, thing);
      }
    }
  }
}
