/** The trade protocol (src/game.cpp `playerRequestTrade`, `internalStartTrade`, `playerAcceptTrade`,
  `internalCloseTrade`).

  A step of any player turns one world into the next; `Invariant` holds after every run of steps.
  The class `Game` performs the same steps in place on linked player objects and is proved to follow
  the functions. */
module TradeProtocol {

  import opened Wrappers
  import F = ItemForest
  import C = ContainerIteration

  type Item = F.Item

  datatype TradeState = NONE | INITIATED | ACCEPT | ACKNOWLEDGE | TRANSFER

  /** The part of a player that the protocol uses; partners are named by number. */
  datatype Info = Info(state: TradeState, partner: Option<nat>, item: Option<Item>)

  const IDLE := Info(NONE, None, None)

  /** All players, and who offers each of the items that are being traded. */
  datatype World = World(players: map<nat, Info>, tradeItems: map<Item, nat>)

  // ---- the steps --------------------------------------------------------------------------------

  function With(w: World, p: nat, x: Info): World {
    w.(players := w.players[p := x])
  }

  function WithoutItem(w: World, item: Option<Item>): World {
    if item.Some? then w.(tradeItems := w.tradeItems - {item.value}) else w
  }

  /** `internalStartTrade` behind the checks of `playerRequestTrade`: two players, an item nobody offers; `clear` is the
    verdict of all other checks. */
  function Start(w: World, p: nat, q: nat, item: Item, clear: bool): World
    requires p in w.players && q in w.players
  {
    var a, b := w.players[p], w.players[q];
    if p == q || item in w.tradeItems || !clear then w
    else if a.state != NONE && !(a.state == ACKNOWLEDGE && a.partner == Some(q)) then w
    else if b.state != NONE && b.partner != Some(p) then w
    else
      var w1 := With(w, p, Info(INITIATED, Some(q), Some(item)));
      var w2 := w1.(tradeItems := w1.tradeItems[item := p]);
      if b.state == NONE then With(w2, q, b.(state := ACKNOWLEDGE, partner := Some(p))) else w2
  }

  /** `internalCloseTrade` */
  function Close(w: World, p: nat): World
    requires p in w.players
  {
    var a := w.players[p];
    var b := if a.partner.Some? && a.partner.value in w.players then Some(w.players[a.partner.value]) else None;
    if (b.Some? && b.value.state == TRANSFER) || a.state == TRANSFER then w
    else
      var w1 := With(WithoutItem(w, a.item), p, IDLE);
      if b.Some? then With(WithoutItem(w1, b.value.item), a.partner.value, IDLE) else w1
  }

  /** The end of a trade that both have accepted, whether or not the items could be moved. */
  function Complete(w: World, p: nat, q: nat): World
    requires p in w.players && q in w.players
  {
    var w1 := WithoutItem(WithoutItem(w, w.players[p].item), w.players[q].item);
    With(With(w1, p, IDLE), q, IDLE)
  }

  /** `playerAcceptTrade`; `canThrow` and `consents` are the verdicts of the world and of the scripts. */
  function Accept(w: World, p: nat, canThrow: bool, consents: bool): World
    requires p in w.players
  {
    var a := w.players[p];
    if !(a.state == ACKNOWLEDGE || a.state == INITIATED) || a.partner.None? || a.partner.value !in w.players then w
    else
      var q := a.partner.value;
      var w1 := With(w, p, a.(state := ACCEPT));
      if w1.players[q].state != ACCEPT then w1
      else if !canThrow || !consents then Close(w1, p)
      else Complete(w1, p, q)
  }

  datatype Event =
    | StartTrade(p: nat, q: nat, item: Item, clear: bool)
    | AcceptTrade(p: nat, canThrow: bool, consents: bool)
    | CloseTrade(p: nat)

  function Step(w: World, e: Event): World {
    match e
    case StartTrade(p, q, item, clear) => if p in w.players && q in w.players then Start(w, p, q, item, clear) else w
    case AcceptTrade(p, canThrow, consents) => if p in w.players then Accept(w, p, canThrow, consents) else w
    case CloseTrade(p) => if p in w.players then Close(w, p) else w
  }

  function Run(w: World, es: seq<Event>): World
    decreases |es|
  {
    if es == [] then w else Run(Step(w, es[0]), es[1..])
  }

  // ---- the invariant ----------------------------------------------------------------------------

  /** The item that a player offers is listed for that player. */
  ghost predicate Listed(w: World, p: nat)
    requires p in w.players
  {
    var item := w.players[p].item;
    item.Some? ==> item.value in w.tradeItems && w.tradeItems[item.value] == p
  }

  /** One player's part of the invariant. */
  ghost predicate Consistent(w: World, p: nat)
    requires p in w.players
  {
    var a := w.players[p];
    && a.state != TRANSFER
    && (a.state == NONE <==> a.partner.None?)
    && (a.state == NONE || a.state == ACKNOWLEDGE ==> a.item.None?)
    && (a.state == INITIATED ==> a.item.Some?)
    && Listed(w, p)
    && (a.partner.Some? ==> Paired(w, p, a.partner.value))
  }

  /** Partners name each other, at least one of them offers an item, and not both have accepted. */
  ghost predicate Paired(w: World, p: nat, q: nat)
    requires p in w.players
  {
    && q != p && q in w.players && w.players[q].partner == Some(p)
    && (w.players[p].item.Some? || w.players[q].item.Some?)
    && !(w.players[p].state == ACCEPT && w.players[q].state == ACCEPT)
  }

  /** Every traded item is offered by the player it is listed for. */
  ghost predicate Offered(w: World, i: Item)
    requires i in w.tradeItems
  {
    w.tradeItems[i] in w.players && w.players[w.tradeItems[i]].item == Some(i)
  }

  ghost predicate Invariant(w: World) {
    && (forall p :: p in w.players ==> Consistent(w, p))
    && (forall i :: i in w.tradeItems ==> Offered(w, i))
  }

  lemma {:induction false} StartKeeps(w: World, p: nat, q: nat, item: Item, clear: bool)
    requires Invariant(w) && p in w.players && q in w.players
    ensures Invariant(Start(w, p, q, item, clear))
  {
    var v := Start(w, p, q, item, clear);
    if v != w {
      assert Consistent(w, p) && Consistent(w, q);
      forall r | r in v.players
        ensures Consistent(v, r)
      {
        assert Consistent(w, r);
      }
      forall i | i in v.tradeItems
        ensures Offered(v, i)
      {
        if i != item { assert Offered(w, i); }
      }
    }
  }

  lemma {:induction false} CloseKeeps(w: World, p: nat)
    requires Invariant(w) && p in w.players
    ensures Invariant(Close(w, p))
    ensures w.players[p].partner.Some? ==> Close(w, p) == Complete(w, p, w.players[p].partner.value)
  {
    assert Consistent(w, p);
    if w.players[p].partner.Some? {
      assert Consistent(w, w.players[p].partner.value);
      CompleteKeeps(w, p, w.players[p].partner.value);
      assert Close(w, p) == Complete(w, p, w.players[p].partner.value);
    } else {
      assert Close(w, p) == w;
    }
  }

  /** Two partners as the invariant has them, except that both may have accepted. */
  ghost predicate Partners(w: World, p: nat, q: nat) {
    && p in w.players && q in w.players && p != q
    && w.players[p].partner == Some(q) && w.players[q].partner == Some(p)
    && Listed(w, p) && Listed(w, q)
  }

  lemma {:induction false} CompleteKeeps(w: World, p: nat, q: nat)
    requires Partners(w, p, q)
    requires forall r :: r in w.players && r != p && r != q ==> Consistent(w, r)
    requires forall i :: i in w.tradeItems ==> Offered(w, i)
    ensures Invariant(Complete(w, p, q))
  {
    var v := Complete(w, p, q);
    forall r | r in v.players
      ensures Consistent(v, r)
    {
      if r != p && r != q {
        assert Consistent(w, r);
        var s := w.players[r].partner;
        assert s.Some? ==> s.value != p && s.value != q;
      }
    }
    forall i | i in v.tradeItems
      ensures Offered(v, i)
    {
      assert Offered(w, i);
    }
  }

  lemma {:induction false} AcceptKeeps(w: World, p: nat, canThrow: bool, consents: bool)
    requires Invariant(w) && p in w.players
    ensures Invariant(Accept(w, p, canThrow, consents))
  {
    var v := Accept(w, p, canThrow, consents);
    assert Consistent(w, p);
    if v != w {
      var a, q := w.players[p], w.players[p].partner.value;
      var w1 := With(w, p, a.(state := ACCEPT));
      assert Consistent(w, q);
      forall r | r in w1.players && r != p && r != q
        ensures Consistent(w1, r)
      {
        assert Consistent(w, r);
      }
      forall i | i in w1.tradeItems
        ensures Offered(w1, i)
      {
        assert Offered(w, i);
      }
      if w1.players[q].state == ACCEPT {
        CompleteKeeps(w1, p, q);
        assert Close(w1, p) == Complete(w1, p, q);
      }
    }
  }

  /** Every step of any player keeps the invariant. */
  lemma {:induction false} StepKeeps(w: World, e: Event)
    requires Invariant(w)
    ensures Invariant(Step(w, e)) && Step(w, e).players.Keys == w.players.Keys
  {
    match e
    case StartTrade(p, q, item, clear) =>
      if p in w.players && q in w.players { StartKeeps(w, p, q, item, clear); }
    case AcceptTrade(p, canThrow, consents) =>
      if p in w.players {
        AcceptKeeps(w, p, canThrow, consents);
        assert Consistent(w, p);
      }
    case CloseTrade(p) =>
      if p in w.players { CloseKeeps(w, p); assert Consistent(w, p); }
  }

  /** Players who have not traded yet. */
  function Fresh(ids: set<nat>): World {
    World(map p | p in ids :: IDLE, map[])
  }

  /** The invariant holds after every run, whoever does what in whichever order. */
  lemma {:induction false} RunKeeps(w: World, es: seq<Event>)
    requires Invariant(w)
    ensures Invariant(Run(w, es))
    decreases |es|
  {
    if es != [] {
      StepKeeps(w, es[0]);
      RunKeeps(Step(w, es[0]), es[1..]);
    }
  }

  lemma {:induction false} EveryRun(ids: set<nat>, es: seq<Event>)
    ensures Invariant(Run(Fresh(ids), es))
  {
    RunKeeps(Fresh(ids), es);
  }

  /** A step leaves everybody alone but the player who acts and that player's partner, old or new. */
  lemma {:induction false} OthersUntouched(w: World, e: Event, r: nat)
    requires Invariant(w) && r in w.players && r != e.p && !(e.StartTrade? && r == e.q)
    requires e.p in w.players ==> w.players[e.p].partner != Some(r)
    ensures r in Step(w, e).players && Step(w, e).players[r] == w.players[r]
  {
    if e.p in w.players { assert Consistent(w, e.p); }
  }

  /** An offer ends, with its trade, when one of the two closes it or both have accepted: an acceptance
    ends a trade only if the partner has accepted as well. */
  lemma {:induction false} AcceptOutcome(w: World, p: nat, canThrow: bool, consents: bool)
    requires Invariant(w) && p in w.players && w.players[p].state in {ACKNOWLEDGE, INITIATED}
    ensures var q := w.players[p].partner;
      q.Some? && q.value in w.players &&
      var v := Accept(w, p, canThrow, consents);
      if w.players[q.value].state == ACCEPT then v == Complete(w, p, q.value)
      else v.tradeItems == w.tradeItems && v.players == w.players[p := w.players[p].(state := ACCEPT)]
  {
    assert Consistent(w, p);
    var q := w.players[p].partner.value;
    assert Consistent(w, q);
    var w1 := With(w, p, w.players[p].(state := ACCEPT));
    if w.players[q].state == ACCEPT {
      assert w1.players[p := IDLE] == w.players[p := IDLE];
      assert Complete(w1, p, q) == Complete(w, p, q);
      assert Close(w1, p) == Complete(w1, p, q);
    }
  }

  /** Whether a request takes effect: the requester is idle or was asked by this very partner, and the partner is idle or
    has this requester as partner. */
  predicate Answers(a: Info, p: nat, b: Info, q: nat) {
    (a.state == NONE || (a.state == ACKNOWLEDGE && a.partner == Some(q))) && (b.state == NONE || b.partner == Some(p))
  }

  /** What a request does, if it takes effect: the requester has initiated a trade of the item, which is listed, and an idle
    partner is asked; otherwise it does nothing. */
  lemma {:induction false} StartExactly(w: World, p: nat, q: nat, item: Item, clear: bool)
    requires p in w.players && q in w.players
    ensures var v := Step(w, StartTrade(p, q, item, clear));
      if p != q && item !in w.tradeItems && clear && Answers(w.players[p], p, w.players[q], q) then
        && v.tradeItems == w.tradeItems[item := p] && v.players.Keys == w.players.Keys
        && v.players[p] == Info(INITIATED, Some(q), Some(item))
        && v.players[q] == (if w.players[q].state == NONE then Info(ACKNOWLEDGE, Some(p), w.players[q].item)
                            else w.players[q])
        && (forall r :: r in w.players && r != p && r != q ==> v.players[r] == w.players[r])
      else v == w
  {
  }

  /** A close ends the trade for both: they are idle, what they offered is no longer listed, and all else is as before. */
  lemma {:induction false} CloseExactly(w: World, p: nat)
    requires Invariant(w) && p in w.players
    ensures var v, a := Step(w, CloseTrade(p)), w.players[p];
      && v.players.Keys == w.players.Keys
      && (forall r :: r in w.players ==>
            v.players[r] == if r == p || a.partner == Some(r) then IDLE else w.players[r])
      && (forall x :: x in v.tradeItems <==>
            x in w.tradeItems && w.tradeItems[x] != p && a.partner != Some(w.tradeItems[x]))
      && (forall x :: x in v.tradeItems ==> v.tradeItems[x] == w.tradeItems[x])
  {
    assert Consistent(w, p);
    CloseKeeps(w, p);
    forall x | x in w.tradeItems
      ensures Offered(w, x)
    {
    }
    if w.players[p].partner.Some? {
      assert Consistent(w, w.players[p].partner.value);
    }
  }

  /** An acceptance counts only from a player who was asked or has offered something. */
  lemma {:induction false} AcceptIgnored(w: World, p: nat, canThrow: bool, consents: bool)
    requires p in w.players && w.players[p].state !in {ACKNOWLEDGE, INITIATED}
    ensures Step(w, AcceptTrade(p, canThrow, consents)) == w
  {
  }

  /** A whole trade: a request, the offer in return, and two acceptances.  On the way both items are listed and both players
    have offered; in the end both are idle, and nothing is left of it. */
  lemma {:induction false} TradeRunsThrough(w: World, p: nat, q: nat, x: Item, y: Item, canThrow: bool, consents: bool)
    requires p in w.players && q in w.players && p != q && w.players[p] == IDLE && w.players[q] == IDLE
    requires x != y && x !in w.tradeItems && y !in w.tradeItems
    ensures var v := Run(w, [StartTrade(p, q, x, true), StartTrade(q, p, y, true)]);
      && v.tradeItems == w.tradeItems[x := p][y := q]
      && v.players == w.players[p := Info(INITIATED, Some(q), Some(x))][q := Info(INITIATED, Some(p), Some(y))]
      && Run(v, [AcceptTrade(p, canThrow, consents), AcceptTrade(q, canThrow, consents)]) == w
  {
    var e1, e2 := StartTrade(p, q, x, true), StartTrade(q, p, y, true);
    var a1, a2 := AcceptTrade(p, canThrow, consents), AcceptTrade(q, canThrow, consents);
    var v := Step(Step(w, e1), e2);
    RunTwo(w, e1, e2);
    BothOffer(w, p, q, x, y);
    RunTwo(v, a1, a2);
    BothAccept(v, p, q, x, y, canThrow, consents);
    BothGone(w, p, q, x, y, Step(v, a1));
    hide Step, Run, Complete;
  }

  lemma {:induction false} BothOffer(w: World, p: nat, q: nat, x: Item, y: Item)
    requires p in w.players && q in w.players && p != q && w.players[p] == IDLE && w.players[q] == IDLE
    requires x != y && x !in w.tradeItems && y !in w.tradeItems
    ensures var v := Step(Step(w, StartTrade(p, q, x, true)), StartTrade(q, p, y, true));
      && v.tradeItems == w.tradeItems[x := p][y := q]
      && v.players == w.players[p := Info(INITIATED, Some(q), Some(x))][q := Info(INITIATED, Some(p), Some(y))]
  {
  }

  lemma {:induction false} BothAccept(v: World, p: nat, q: nat, x: Item, y: Item, canThrow: bool, consents: bool)
    requires p in v.players && q in v.players && p != q
    requires v.players[p] == Info(INITIATED, Some(q), Some(x)) && v.players[q] == Info(INITIATED, Some(p), Some(y))
    ensures var v1 := Step(v, AcceptTrade(p, canThrow, consents));
      && v1 == v.(players := v.players[p := Info(ACCEPT, Some(q), Some(x))])
      && Step(v1, AcceptTrade(q, canThrow, consents)) == Complete(v1, q, p)
  {
    var v1 := Step(v, AcceptTrade(p, canThrow, consents));
    var v2 := With(v1, q, v1.players[q].(state := ACCEPT));
    assert v2.players[q := IDLE] == v1.players[q := IDLE];
    assert Close(v2, q) == Complete(v2, q, p) == Complete(v1, q, p);
  }

  lemma {:induction false} BothGone(w: World, p: nat, q: nat, x: Item, y: Item, v: World)
    requires p in w.players && q in w.players && p != q && w.players[p] == IDLE && w.players[q] == IDLE
    requires x != y && x !in w.tradeItems && y !in w.tradeItems && v.tradeItems == w.tradeItems[x := p][y := q]
    requires v.players == w.players[p := Info(ACCEPT, Some(q), Some(x))][q := Info(INITIATED, Some(p), Some(y))]
    ensures Complete(v, q, p) == w
  {
    assert Complete(v, q, p).players == w.players;
    assert Complete(v, q, p).tradeItems == w.tradeItems;
  }

  lemma {:induction false} RunTwo(w: World, a: Event, b: Event)
    ensures Run(w, [a, b]) == Step(Step(w, a), b)
  {
    assert [a, b][1..] == [b] && [b][1..] == [];
    assert Run(Step(w, a), [b]) == Step(Step(w, a), b);
  }

  // ---- what happens during a transfer -----------------------------------------------------------

  /** The world while the items of two partners change hands: neither item is listed any more. */
  function Begin(w: World, p: nat, q: nat): World
    requires p in w.players && q in w.players
  {
    var x, y := w.players[p].(state := TRANSFER), w.players[q].(state := TRANSFER);
    WithoutItem(WithoutItem(With(With(w, p, x), q, y), x.item), y.item)
  }

  function Finish(w: World, p: nat, q: nat): World {
    With(With(w, p, IDLE), q, IDLE)
  }

  /** The states passed through in a transfer leave no trace. */
  lemma {:induction false} TransferHidden(w: World, p: nat, q: nat)
    requires p in w.players && q in w.players && p != q
    ensures Finish(Begin(w, p, q), p, q) == Complete(w, p, q)
  {
    var x, y := w.players[p].(state := TRANSFER), w.players[q].(state := TRANSFER);
    assert w.players[p := x][q := y][p := IDLE][q := IDLE] == w.players[p := IDLE][q := IDLE];
  }

  ghost predicate InTransfer(w: World, p: nat, q: nat) {
    && p in w.players && q in w.players && p != q
    && w.players[p].state == w.players[q].state == TRANSFER
    && w.players[p].partner == Some(q) && w.players[q].partner == Some(p)
    && Invariant(Finish(w, p, q))
  }

  predicate Names(e: Event, r: nat) {
    e.p == r || (e.StartTrade? && e.q == r)
  }

  /** During a transfer, what names one of the two does nothing; anything else does what it would do afterwards. */
  lemma {:induction false} StepInTransfer(w: World, e: Event, p: nat, q: nat)
    requires InTransfer(w, p, q)
    ensures InTransfer(Step(w, e), p, q)
    ensures Names(e, p) || Names(e, q) ==> Step(w, e) == w
    ensures !Names(e, p) && !Names(e, q) ==> Finish(Step(w, e), p, q) == Step(Finish(w, p, q), e)
  {
    var v := Finish(w, p, q);
    StepKeeps(v, e);
    if Names(e, p) || Names(e, q) {
      NothingDone(w, e, p, q);
    } else {
      if e.p in v.players {
        assert Consistent(v, e.p);
        assert v.players[e.p].partner != Some(p) && v.players[e.p].partner != Some(q);
        assert w.players[e.p] == v.players[e.p];
      }
      SameOutside(w, e, p, q);
    }
    hide Step, Invariant, Consistent;
  }

  lemma {:induction false} NothingDone(w: World, e: Event, p: nat, q: nat)
    requires InTransfer(w, p, q) && (Names(e, p) || Names(e, q))
    ensures Step(w, e) == w
  {
    hide Invariant;
  }

  lemma {:induction false} FinishWith(w: World, r: nat, x: Info, p: nat, q: nat)
    requires r != p && r != q
    ensures Finish(With(w, r, x), p, q) == With(Finish(w, p, q), r, x)
  {
    assert w.players[r := x][p := IDLE][q := IDLE] == w.players[p := IDLE][q := IDLE][r := x];
  }

  lemma {:induction false} FinishWithout(w: World, item: Option<Item>, p: nat, q: nat)
    ensures Finish(WithoutItem(w, item), p, q) == WithoutItem(Finish(w, p, q), item)
  {
  }

  ghost predicate Untouched(w: World, v: World, p: nat, q: nat)
    requires p in w.players && q in w.players
  {
    p in v.players && q in v.players && v.players[p] == w.players[p] && v.players[q] == w.players[q]
  }

  lemma {:induction false} SameStart(w: World, r: nat, s: nat, item: Item, clear: bool, p: nat, q: nat)
    requires p in w.players && q in w.players && r in w.players && s in w.players && r != p && r != q && s != p
    requires s != q
    ensures Untouched(w, Start(w, r, s, item, clear), p, q)
    ensures Finish(Start(w, r, s, item, clear), p, q) == Start(Finish(w, p, q), r, s, item, clear)
  {
    var b := w.players[s];
    var w1 := With(w, r, Info(INITIATED, Some(s), Some(item)));
    var w2 := w1.(tradeItems := w1.tradeItems[item := r]);
    FinishWith(w, r, Info(INITIATED, Some(s), Some(item)), p, q);
    FinishWith(w2, s, b.(state := ACKNOWLEDGE, partner := Some(r)), p, q);
  }

  lemma {:induction false} SameClose(w: World, r: nat, p: nat, q: nat)
    requires p in w.players && q in w.players && r in w.players && r != p && r != q
    requires w.players[r].partner != Some(p) && w.players[r].partner != Some(q)
    ensures Untouched(w, Close(w, r), p, q)
    ensures Finish(Close(w, r), p, q) == Close(Finish(w, p, q), r)
  {
    var a := w.players[r];
    FinishWithout(w, a.item, p, q);
    var w1 := With(WithoutItem(w, a.item), r, IDLE);
    FinishWith(WithoutItem(w, a.item), r, IDLE, p, q);
    if a.partner.Some? && a.partner.value in w.players {
      var b := w.players[a.partner.value];
      FinishWithout(w1, b.item, p, q);
      FinishWith(WithoutItem(w1, b.item), a.partner.value, IDLE, p, q);
    }
    hide Finish;
  }

  lemma {:induction false} SameComplete(w: World, r: nat, s: nat, p: nat, q: nat)
    requires p in w.players && q in w.players && r in w.players && s in w.players && r != p && r != q && s != p
    requires s != q
    ensures Untouched(w, Complete(w, r, s), p, q)
    ensures Finish(Complete(w, r, s), p, q) == Complete(Finish(w, p, q), r, s)
  {
    var w1 := WithoutItem(w, w.players[r].item);
    var w2 := WithoutItem(w1, w.players[s].item);
    FinishWithout(w, w.players[r].item, p, q);
    FinishWithout(w1, w.players[s].item, p, q);
    FinishWith(w2, r, IDLE, p, q);
    FinishWith(With(w2, r, IDLE), s, IDLE, p, q);
  }

  lemma {:induction false} SameAccept(w: World, r: nat, canThrow: bool, consents: bool, p: nat, q: nat)
    requires p in w.players && q in w.players && r in w.players && r != p && r != q
    requires w.players[r].partner != Some(p) && w.players[r].partner != Some(q)
    ensures Untouched(w, Accept(w, r, canThrow, consents), p, q)
    ensures Finish(Accept(w, r, canThrow, consents), p, q) == Accept(Finish(w, p, q), r, canThrow, consents)
  {
    var a := w.players[r];
    if a.partner.Some? && a.partner.value in w.players {
      var w1 := With(w, r, a.(state := ACCEPT));
      FinishWith(w, r, a.(state := ACCEPT), p, q);
      SameClose(w1, r, p, q);
      SameComplete(w1, r, a.partner.value, p, q);
      hide Close, Complete;
    }
  }

  /** A step that touches neither of two players commutes with setting both to idle. */
  lemma {:induction false} SameOutside(w: World, e: Event, p: nat, q: nat)
    requires p in w.players && q in w.players && !Names(e, p) && !Names(e, q)
    requires e.p in w.players ==> w.players[e.p].partner != Some(p) && w.players[e.p].partner != Some(q)
    ensures Untouched(w, Step(w, e), p, q) && Finish(Step(w, e), p, q) == Step(Finish(w, p, q), e)
  {
    match e
    case StartTrade(r, s, item, clear) =>
      if r in w.players && s in w.players { SameStart(w, r, s, item, clear, p, q); }
      hide Start;
    case AcceptTrade(r, canThrow, consents) =>
      if r in w.players { SameAccept(w, r, canThrow, consents, p, q); }
      hide Accept;
    case CloseTrade(r) =>
      if r in w.players { SameClose(w, r, p, q); }
      hide Close;
  }

  /** The events that name neither player. */
  function Elsewhere(es: seq<Event>, p: nat, q: nat): seq<Event> {
    if es == [] then []
    else (if Names(es[0], p) || Names(es[0], q) then [] else [es[0]]) + Elsewhere(es[1..], p, q)
  }

  /** Whatever anybody does while a pair is in transfer, in whichever order: the transfer ends as if nobody had
    interfered, and as if all that does not name the two had happened afterwards. */
  lemma {:induction false} RunInTransfer(w: World, es: seq<Event>, p: nat, q: nat)
    requires InTransfer(w, p, q)
    ensures InTransfer(Run(w, es), p, q)
    ensures Finish(Run(w, es), p, q) == Run(Finish(w, p, q), Elsewhere(es, p, q))
    decreases |es|
  {
    hide InTransfer, Finish, Step;
    if es != [] {
      StepInTransfer(w, es[0], p, q);
      RunInTransfer(Step(w, es[0]), es[1..], p, q);
      var rest := Elsewhere(es[1..], p, q);
      if !Names(es[0], p) && !Names(es[0], q) {
        assert Elsewhere(es, p, q) == [es[0]] + rest && ([es[0]] + rest)[1..] == rest;
      } else {
        assert Elsewhere(es, p, q) == rest;
      }
    }
  }

  /** So a trade that both have accepted completes, and the invariant holds afterwards, whatever happens in between. */
  lemma {:induction false} TransferIsAtomic(w: World, es: seq<Event>, p: nat, q: nat)
    requires Partners(w, p, q)
    requires forall r :: r in w.players && r != p && r != q ==> Consistent(w, r)
    requires forall i :: i in w.tradeItems ==> Offered(w, i)
    ensures Finish(Run(Begin(w, p, q), es), p, q) == Run(Complete(w, p, q), Elsewhere(es, p, q))
    ensures Invariant(Finish(Run(Begin(w, p, q), es), p, q))
  {
    CompleteKeeps(w, p, q);
    TransferHidden(w, p, q);
    RunInTransfer(Begin(w, p, q), es, p, q);
    RunKeeps(Complete(w, p, q), Elsewhere(es, p, q));
  }

  // ---- items in items ---------------------------------------------------------------------------

  /** Where items lie: each one followed by its container, the container of that, and so on. */
  type Paths = map<Item, seq<Item>>

  ghost function PathsOf(S: set<Item>): (r: Paths)
    reads S`path
    ensures r.Keys == S
  {
    map x | x in S :: x.path
  }

  /** `a` holds `b`, at any depth. */
  predicate Holds(paths: Paths, a: Item, b: Item) {
    b in paths && a != b && a in paths[b]
  }

  /** The check of `playerRequestTrade`: no traded item lies in the new one or the other way round. */
  ghost predicate Disjoint(traded: set<Item>, item: Item, paths: Paths) {
    forall i :: i in traded ==> !Holds(paths, item, i) && !Holds(paths, i, item)
  }

  ghost predicate Apart(w: World, paths: Paths) {
    forall i, j :: i in w.tradeItems && j in w.tradeItems ==> !Holds(paths, i, j)
  }

  /** A request is checked against where the items lie. */
  ghost predicate Checked(w: World, e: Event, paths: Paths) {
    e.StartTrade? && e.clear ==> Disjoint(w.tradeItems.Keys, e.item, paths)
  }

  /** No step brings a traded item into a traded one. */
  lemma {:induction false} StepKeepsApart(w: World, e: Event, paths: Paths)
    requires Apart(w, paths) && Checked(w, e, paths)
    ensures Apart(Step(w, e), paths)
  {
    var v := Step(w, e);
    forall i, j | i in v.tradeItems && j in v.tradeItems
      ensures !Holds(paths, i, j)
    {
      assert i in w.tradeItems || (e.StartTrade? && e.clear && i == e.item);
      assert j in w.tradeItems || (e.StartTrade? && e.clear && j == e.item);
    }
  }

  // ---- the objects ------------------------------------------------------------------------------

  class Player {
    const id: nat
    var tradeState: TradeState
    var tradePartner: Player?
    var tradeItem: Option<Item>

    constructor (id: nat)
      ensures this.id == id && tradeState == NONE && tradePartner == null && tradeItem == None
    {
      this.id := id;
      tradeState, tradePartner, tradeItem := NONE, null, None;
    }
  }

  class Game {
    const players: map<nat, Player>
    var tradeItems: map<Item, nat>

    constructor (players: map<nat, Player>)
      ensures this.players == players && tradeItems == map[]
    {
      this.players := players;
      tradeItems := map[];
    }

    ghost predicate WellFormed()
      reads this, players.Values
    {
      && (forall id :: id in players ==> players[id].id == id)
      && (forall id :: id in players ==> players[id].tradePartner == null || Known(players[id].tradePartner))
    }

    /** The player is one of the game's. */
    predicate Known(p: Player) {
      p.id in players && players[p.id] == p
    }

    ghost function InfoOf(p: Player): Info
      reads p
    {
      Info(p.tradeState, if p.tradePartner == null then None else Some(p.tradePartner.id), p.tradeItem)
    }

    ghost function View(): World
      reads this, players.Values
    {
      World(map id | id in players :: InfoOf(players[id]), tradeItems)
    }

    lemma {:induction false} Shown(p: Player)
      requires WellFormed() && Known(p)
      ensures p.id in View().players && View().players[p.id] == InfoOf(p)
    {
    }

    /** Overwrites the trade fields of one player. */
    method Set(p: Player, state: TradeState, partner: Player?, item: Option<Item>)
      requires WellFormed() && Known(p) && (partner == null || Known(partner))
      modifies p
      ensures WellFormed() && View() == With(old(View()), p.id, InfoOf(p))
      ensures p.tradeState == state && p.tradePartner == partner && p.tradeItem == item
    {
      p.tradeState, p.tradePartner, p.tradeItem := state, partner, item;
      assert forall id :: id in players && id != p.id ==> players[id] != p;
    }

    /** Takes an item off the list of traded items, if there is one. */
    method Erase(item: Option<Item>)
      requires WellFormed()
      modifies this
      ensures WellFormed() && View() == WithoutItem(old(View()), item)
    {
      if item.Some? {
        tradeItems := tradeItems - {item.value};
      }
    }

    /** The loop of `playerRequestTrade` over all traded items. */
    method CheckItem(tradeItem: Item, ghost S: set<Item>) returns (clear: bool)
      requires F.Linkage(S) && tradeItem in S && tradeItems.Keys <= S
      ensures clear <==> tradeItem !in tradeItems && Disjoint(tradeItems.Keys, tradeItem, PathsOf(S))
    {
      var left := tradeItems.Keys;
      while left != {}
        invariant left <= tradeItems.Keys
        invariant tradeItem in tradeItems.Keys ==> tradeItem in left
        invariant Disjoint(tradeItems.Keys - left, tradeItem, PathsOf(S))
        decreases left
      {
        var item :| item in left;
        if tradeItem == item { return false; }
        var held := IsHolding(tradeItem, item, S);
        if held { return false; }
        held := IsHolding(item, tradeItem, S);
        if held { return false; }
        left := left - {item};
      }
      clear := true;
    }

    /** The requester is idle or was asked by this very partner, and the partner is idle or has this requester as partner. */
    predicate Answering(player: Player, tradePartner: Player)
      reads player, tradePartner
    {
      && (player.tradeState == NONE || (player.tradeState == ACKNOWLEDGE && player.tradePartner == tradePartner))
      && (tradePartner.tradeState == NONE || tradePartner.tradePartner == player)
    }

    /** What a request has done, if it took effect. */
    twostate predicate Started(ok: bool, player: Player, tradePartner: Player, tradeItem: Item)
      reads this, player, tradePartner
    {
      if ok then
        && player.tradeState == INITIATED && player.tradePartner == tradePartner && player.tradeItem == Some(tradeItem)
        && tradeItems == old(tradeItems)[tradeItem := player.id]
        && tradePartner.tradeItem == old(tradePartner.tradeItem)
        && (if old(tradePartner.tradeState) == NONE
            then tradePartner.tradeState == ACKNOWLEDGE && tradePartner.tradePartner == player
            else tradePartner.tradeState == old(tradePartner.tradeState) && tradePartner.tradePartner == player)
      else
        unchanged(this, player, tradePartner)
    }

    /** `playerRequestTrade`; `allowed` is the verdict of distance, sight and scripts. */
    method RequestTrade(player: Player, tradePartner: Player, tradeItem: Item, allowed: bool, ghost S: set<Item>)
      returns (ok: bool)
      requires WellFormed() && Known(player) && Known(tradePartner)
      requires F.Linkage(S) && tradeItem in S && tradeItems.Keys <= S
      modifies this, player, tradePartner
      ensures WellFormed()
      ensures View() == Start(old(View()), player.id, tradePartner.id, tradeItem,
                              allowed && old(Tradable(S, tradeItems.Keys, tradeItem)))
      ensures ok <==> old(player != tradePartner && allowed && tradeItem !in tradeItems &&
                          Tradable(S, tradeItems.Keys, tradeItem) && Answering(player, tradePartner))
      ensures Started(ok, player, tradePartner, tradeItem)
    {
      Shown(player);
      Shown(tradePartner);
      hide Tradable;
      if player == tradePartner { return false; }
      var clear := CheckItem(tradeItem, S);
      if clear { clear := CheckCount(tradeItem, S); }
      TradableMeans(S, tradeItems.Keys, tradeItem);
      if !clear || !allowed { return false; }
      ok := StartTrade(player, tradePartner, tradeItem);
    }

    /** `internalStartTrade` */
    method StartTrade(player: Player, tradePartner: Player, tradeItem: Item) returns (ok: bool)
      requires WellFormed() && Known(player) && Known(tradePartner) && player != tradePartner
      requires tradeItem !in tradeItems
      modifies this, player, tradePartner
      ensures WellFormed() && View() == Start(old(View()), player.id, tradePartner.id, tradeItem, true)
      ensures ok <==> old(Answering(player, tradePartner))
      ensures Started(ok, player, tradePartner, tradeItem)
    {
      Shown(player);
      Shown(tradePartner);
      if player.tradeState != NONE && !(player.tradeState == ACKNOWLEDGE && player.tradePartner == tradePartner) {
        return false;
      } else if tradePartner.tradeState != NONE && tradePartner.tradePartner != player {
        return false;
      }
      Offer(player, tradePartner, tradeItem);
      if tradePartner.tradeState == NONE {
        Set(tradePartner, ACKNOWLEDGE, player, tradePartner.tradeItem);
      }
      ok := true;
    }

    method Offer(player: Player, tradePartner: Player, tradeItem: Item)
      requires WellFormed() && Known(player) && Known(tradePartner)
      modifies this, player
      ensures WellFormed() && player.tradeState == INITIATED && player.tradeItem == Some(tradeItem)
      ensures player.tradePartner == tradePartner
      ensures var w := With(old(View()), player.id, Info(INITIATED, Some(tradePartner.id), Some(tradeItem)));
        View() == w.(tradeItems := w.tradeItems[tradeItem := player.id])
    {
      Set(player, INITIATED, tradePartner, Some(tradeItem));
      tradeItems := tradeItems[tradeItem := player.id];
    }

    /** `internalCloseTrade` */
    method CloseTrade(player: Player)
      requires WellFormed() && Known(player)
      modifies this, players.Values
      ensures WellFormed() && View() == Close(old(View()), player.id)
    {
      var tradePartner := player.tradePartner;
      if (tradePartner != null && tradePartner.tradeState == TRANSFER) || player.tradeState == TRANSFER { return; }
      Shown(player);
      if tradePartner != null { Shown(tradePartner); }
      hide View;
      Release(player);
      if tradePartner != null {
        Shown(tradePartner);
        Release(tradePartner);
      }
    }

    /** One side of a trade that is closed. */
    method Release(player: Player)
      requires WellFormed() && Known(player)
      modifies this, player
      ensures WellFormed() && View() == With(WithoutItem(old(View()), old(player.tradeItem)), player.id, IDLE)
      ensures InfoOf(player) == IDLE
    {
      hide View;
      Erase(player.tradeItem);
      Set(player, NONE, null, None);
    }

    /** `playerAcceptTrade` without the moves of the items; `during` are the players whose trades are closed
      while the items change hands, by scripts and other consequences of the moves. */
    method AcceptTrade(player: Player, canThrow: bool, consents: bool, during: seq<Player>)
      requires WellFormed() && Known(player) && Invariant(View()) && forall r :: r in during ==> Known(r)
      modifies this, players.Values
      ensures WellFormed()
      ensures View() == AcceptDuring(old(View()), player.id, canThrow, consents, Closes(during))
    {
      if !(player.tradeState == ACKNOWLEDGE || player.tradeState == INITIATED) { return; }
      var tradePartner := player.tradePartner;
      if tradePartner == null { return; }
      AcceptedWorld(View(), player.id);
      Shown(tradePartner);
      hide Invariant, Consistent, Partners;
      Set(player, ACCEPT, tradePartner, player.tradeItem);
      if tradePartner.tradeState == ACCEPT {
        if !canThrow {
          CloseTrade(player);
          return;
        }
        if !consents {
          CloseTrade(player);
          return;
        }
        Transfer(player, tradePartner, during);
      }
    }

    /** The transfer of `playerAcceptTrade`. Nothing of it is visible before and after: closing a trade of the two in
      the middle does nothing, closing any other is as good as closing it afterwards. */
    method Transfer(player: Player, tradePartner: Player, during: seq<Player>)
      requires WellFormed() && Known(player) && Known(tradePartner) && Partners(View(), player.id, tradePartner.id)
      requires forall r :: r in View().players && r != player.id && r != tradePartner.id ==> Consistent(View(), r)
      requires forall i :: i in View().tradeItems ==> Offered(View(), i)
      requires forall r :: r in during ==> Known(r)
      modifies this, players.Values
      ensures WellFormed()
      ensures View() == Run(Complete(old(View()), player.id, tradePartner.id),
                            Elsewhere(Closes(during), player.id, tradePartner.id))
    {
      TransferIsAtomic(View(), Closes(during), player.id, tradePartner.id);
      hide Partners, Consistent, Offered, Invariant, Elsewhere, Complete;
      BeginTransfer(player, tradePartner);
      CloseAll(during);
      EndTransfer(player, tradePartner);
    }

    method BeginTransfer(player: Player, tradePartner: Player)
      requires WellFormed() && Known(player) && Known(tradePartner) && player != tradePartner
      modifies this, player, tradePartner
      ensures WellFormed() && View() == Begin(old(View()), player.id, tradePartner.id)
    {
      var playerTradeItem, partnerTradeItem := player.tradeItem, tradePartner.tradeItem;
      Shown(player);
      Shown(tradePartner);
      hide View, With, WithoutItem;
      Set(player, TRANSFER, player.tradePartner, player.tradeItem);
      Set(tradePartner, TRANSFER, tradePartner.tradePartner, tradePartner.tradeItem);
      Erase(playerTradeItem);
      Erase(partnerTradeItem);
    }

    method EndTransfer(player: Player, tradePartner: Player)
      requires WellFormed() && Known(player) && Known(tradePartner)
      modifies this, player, tradePartner
      ensures WellFormed() && View() == Finish(old(View()), player.id, tradePartner.id)
    {
      Set(player, NONE, null, None);
      Set(tradePartner, NONE, null, None);
    }

    /** One trade after the other is closed. */
    method CloseAll(during: seq<Player>)
      requires WellFormed() && forall r :: r in during ==> Known(r)
      modifies this, players.Values
      ensures WellFormed() && View() == Run(old(View()), Closes(during))
    {
      ghost var es := Closes(during);
      assert Run(View(), es[..0]) == View();
      for i := 0 to |during|
        invariant WellFormed() && View() == Run(old(View()), es[..i])
      {
        Shown(during[i]);
        ghost var w := View();
        CloseTrade(during[i]);
        RunMore(old(View()), es, i);
      }
      assert es[..|during|] == es;
    }
  }

  const MAX_OBJECTS := 100

  /** The limit on the objects of one trade. */
  ghost predicate Few(S: set<Item>, item: Item)
    reads S`path
  {
    item.isContainer ==> |C.HeldBy(S, item)| + 1 <= MAX_OBJECTS
  }

  /** What `playerRequestTrade` demands of an item, besides that it is not traded. */
  ghost predicate Tradable(S: set<Item>, traded: set<Item>, item: Item)
    reads S`path
  {
    Few(S, item) && Disjoint(traded, item, PathsOf(S))
  }

  /** A container is traded with at most 99 items in it, at any depth. */
  lemma {:induction false} FewMeans(S: set<Item>, item: Item)
    ensures Few(S, item) <==> (item.isContainer ==> |C.HeldBy(S, item)| < 100)
  {
  }

  lemma {:induction false} TradableMeans(S: set<Item>, traded: set<Item>, item: Item)
    ensures Tradable(S, traded, item) <==> Few(S, item) && Disjoint(traded, item, PathsOf(S))
  {
  }

  /** `getContainer` followed by `getItemHoldingCount`. */
  method CheckCount(item: Item, ghost S: set<Item>) returns (few: bool)
    requires F.Linkage(S) && item in S
    ensures few <==> Few(S, item)
  {
    few := true;
    if item.isContainer {
      var count := C.GetItemHoldingCount(item, S);
      few := count + 1 <= MAX_OBJECTS;
    }
  }

  /** `getContainer` followed by `isHoldingItem`. */
  method IsHolding(c: Item, item: Item, ghost S: set<Item>) returns (held: bool)
    requires F.Linkage(S) && c in S && item in S && c != item
    ensures held <==> Holds(PathsOf(S), c, item)
  {
    if c in item.path { OnlyContainersHold(S, c, item); }
    held := false;
    if c.isContainer {
      held := C.IsHoldingItem(c, item, S);
    }
  }

  lemma {:induction false} OnlyContainersHold(S: set<Item>, c: Item, x: Item)
    requires F.Linkage(S) && c in S && x in S && c != x && c in x.path
    ensures c.isContainer
    decreases |x.path|
  {
    assert x.Linked(S);
    var p := x.parent;
    if p != c {
      assert p.Linked(S);
      OnlyContainersHold(S, c, p);
    }
  }

  function Closes(during: seq<Player>): seq<Event> {
    seq(|during|, i requires 0 <= i < |during| => CloseTrade(during[i].id))
  }

  lemma {:induction false} RunMore(w: World, es: seq<Event>, i: nat)
    requires i < |es|
    ensures Run(w, es[..i + 1]) == Step(Run(w, es[..i]), es[i])
    decreases i
  {
    if i > 0 {
      RunMore(Step(w, es[0]), es[1..], i - 1);
      assert es[1..][..i] == es[..i + 1][1..] && es[1..][..i - 1] == es[..i][1..];
    } else {
      assert es[..1] == [es[0]];
    }
  }

  /** `Accept`, with what is closed while the items change hands. */
  ghost function AcceptDuring(w: World, p: nat, canThrow: bool, consents: bool, es: seq<Event>): World
    requires p in w.players
  {
    var v, q := Accept(w, p, canThrow, consents), w.players[p].partner;
    if w.players[p].state in {ACKNOWLEDGE, INITIATED} && q.Some? && q.value in w.players
      && w.players[q.value].state == ACCEPT && canThrow && consents
    then Run(v, Elsewhere(es, p, q.value)) else v
  }

  /** With one acceptance more the two are partners still, and all others as before. */
  lemma {:induction false} AcceptedWorld(w: World, p: nat)
    requires Invariant(w) && p in w.players && w.players[p].partner.Some?
    requires w.players[p].state in {ACKNOWLEDGE, INITIATED}
    ensures var q := w.players[p].partner.value; var v := With(w, p, w.players[p].(state := ACCEPT));
      && q in w.players && Partners(v, p, q)
      && (forall r :: r in v.players && r != p && r != q ==> Consistent(v, r))
      && (forall i :: i in v.tradeItems ==> Offered(v, i))
  {
    assert Consistent(w, p);
    var q := w.players[p].partner.value;
    assert Consistent(w, q);
    var v := With(w, p, w.players[p].(state := ACCEPT));
    forall r | r in v.players && r != p && r != q
      ensures Consistent(v, r)
    {
      assert Consistent(w, r);
    }
    forall i | i in v.tradeItems
      ensures Offered(v, i)
    {
      assert Offered(w, i);
    }
  }
}
