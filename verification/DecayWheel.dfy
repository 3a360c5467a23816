/** The timing wheel of decaying items (src/game.cpp `startDecay`, `internalDecayItem`, `checkDecay`,
  `cleanup`; src/game.h).

  Every 250 ms one of four buckets is scanned.  An item of long duration returns to the same bucket
  every second; its last fraction of a second decides whether it decays a bucket later.  The ghost
  field `due` is the tick at which an item decays; it is fixed when the item enters the wheel and no
  step changes it, whatever else is in the wheel. */
module DecayWheel {

  const EVENT_DECAYINTERVAL := 250
  const EVENT_DECAY_BUCKETS := 4
  const ROUND := EVENT_DECAYINTERVAL * EVENT_DECAY_BUCKETS

  /** Where an item is: out of the wheel, waiting to enter it, or in a bucket. */
  datatype Place = Out | Waiting | Bucket(b: nat)

  datatype Decay = Decay(time: nat, to: int)

  /** Decay time in seconds and successor of each item type; 0 for removal, negative for none. */
  type Types = nat -> Decay

  /** How many ticks after the next visit an item of duration `d` decays. */
  function Extra(d: nat): nat {
    if d <= ROUND then 0
    else if d - ROUND >= ROUND then EVENT_DECAY_BUCKETS + Extra(d - ROUND)
    else if d - ROUND + EVENT_DECAYINTERVAL / 2 >= 1000 then 1
    else 0
  }

  /** Ticks until the next visit of bucket `b` when `last` was the last one scanned. */
  function Distance(b: nat, last: nat): nat {
    (b + EVENT_DECAY_BUCKETS - last - 1) % EVENT_DECAY_BUCKETS + 1
  }

  /** The tick of the decay, counted from the entry into the wheel. */
  function DueTick(d: nat): nat {
    if d < 1000 then 1 else 4 * (d / 1000) + (if d % 1000 >= 875 then 1 else 0)
  }

  /** The closed form: an item that enters the bucket chosen for it is due at `DueTick`. */
  lemma {:induction false} DueTickIsVisit(d: nat)
    requires d > 0
    ensures DueTick(d) == (if d < ROUND then 1 else EVENT_DECAY_BUCKETS) + Extra(d)
  {
    if d > ROUND && d - ROUND >= ROUND {
      DueTickIsVisit(d - ROUND);
    }
  }

  /** The decay is less than 875 ms early and less than 250 ms late. */
  lemma {:induction false} Punctual(d: nat)
    requires d > 0
    ensures -875 < EVENT_DECAYINTERVAL * DueTick(d) - d < 250
  {
  }

  class Item {
    var id: nat
    var duration: int
    var decaying: bool
    var removed: bool
    var unique: bool
    ghost var place: Place
    ghost var due: nat
    /** The ticks at which this item has decayed. */
    ghost var decays: seq<nat>

    constructor (types: Types, id: nat)
      ensures this.id == id && duration == types(id).time * 1000 && !decaying && !removed && !unique
      ensures place == Out && decays == []
    {
      this.id, duration, decaying, removed, unique := id, types(id).time * 1000, false, false, false;
      place, due, decays := Out, 0, [];
    }

    /** `Item::canDecay` */
    predicate CanDecay(types: Types)
      reads this
    {
      !removed && types(id).to >= 0 && types(id).time != 0 && !unique
    }

    /** An item in bucket `b`, whose next visit is at tick `visit`. */
    ghost predicate Scheduled(b: nat, visit: nat)
      reads this
    {
      place == Bucket(b) && duration > 0 && decaying && due == visit + Extra(duration)
    }

    ghost predicate Pending()
      reads this
    {
      place == Waiting && duration > 0 && decaying
    }
  }

  ghost predicate Distinct<T>(s: seq<T>) {
    forall i, j :: 0 <= i < j < |s| ==> s[i] != s[j]
  }

  /** The items of a bucket, all with the same next visit. */
  ghost predicate AllScheduled(s: seq<Item>, b: nat, visit: nat)
    reads s
  {
    Distinct(s) && forall i :: 0 <= i < |s| ==> s[i].Scheduled(b, visit)
  }

  ghost predicate AllPending(s: seq<Item>)
    reads s
  {
    Distinct(s) && forall i :: 0 <= i < |s| ==> s[i].Pending()
  }

  ghost function Union(lists: seq<seq<Item>>): set<Item> {
    set b, k | 0 <= b < |lists| && 0 <= k < |lists[b]| :: lists[b][k]
  }

  lemma {:induction false} UnionAppend(lists: seq<seq<Item>>, b: nat, x: Item)
    requires b < |lists|
    ensures Union(lists[b := lists[b] + [x]]) == Union(lists) + {x}
  {
    var after := lists[b := lists[b] + [x]];
    forall y | y in Union(lists)
      ensures y in Union(after)
    {
      var c, k :| 0 <= c < |lists| && 0 <= k < |lists[c]| && lists[c][k] == y;
      assert after[c][k] == y;
    }
    assert after[b][|lists[b]|] == x;
    forall y | y in Union(after) && y != x
      ensures y in Union(lists)
    {
      var c, k :| 0 <= c < |after| && 0 <= k < |after[c]| && after[c][k] == y;
      assert lists[c][k] == y;
    }
  }

  lemma {:induction false} UnionErase(lists: seq<seq<Item>>, b: nat, i: nat)
    requires b < |lists| && i < |lists[b]|
    requires forall c, k :: 0 <= c < |lists| && 0 <= k < |lists[c]| && !(c == b && k == i) ==> lists[c][k] != lists[b][i]
    ensures Union(lists[b := lists[b][..i] + lists[b][i + 1..]]) == Union(lists) - {lists[b][i]}
  {
    var x, after := lists[b][i], lists[b := lists[b][..i] + lists[b][i + 1..]];
    forall y | y in Union(lists) && y != x
      ensures y in Union(after)
    {
      var c, k :| 0 <= c < |lists| && 0 <= k < |lists[c]| && lists[c][k] == y;
      assert after[c][if c == b && k > i then k - 1 else k] == y;
    }
    forall y | y in Union(after)
      ensures y in Union(lists) && y != x
    {
      var c, k :| 0 <= c < |after| && 0 <= k < |after[c]| && after[c][k] == y;
      assert y == lists[c][if c == b && k >= i then k + 1 else k];
    }
  }

  lemma {:induction false} DistinctErase(list: seq<Item>, i: nat)
    requires Distinct(list) && i < |list|
    ensures Distinct(list[..i] + list[i + 1..])
  {
  }

  /** The items of `rest` stand in `list` from position `i` on, each once; all items of the list are in `all`. */
  ghost predicate Splits(list: seq<Item>, i: nat, rest: set<Item>, all: set<Item>) {
    && i <= |list| && Distinct(list) && rest == (set x | x in list[i..]) && (set x | x in list) <= all
  }

  lemma {:induction false} SplitsStep(list: seq<Item>, i: nat, rest: set<Item>, all: set<Item>)
    requires Splits(list, i, rest, all) && i < |list|
    ensures list[i] in rest && list[i] in all
    ensures Splits(list, i + 1, rest - {list[i]}, all)
    ensures Splits(list[..i] + list[i + 1..], i, rest - {list[i]}, all)
  {
    var erased := list[..i] + list[i + 1..];
    assert list[i..] == [list[i]] + list[i + 1..] && erased[i..] == list[i + 1..];
    assert forall x :: x in erased ==> x in list;
  }

  lemma {:induction false} AllSeen(list: seq<Item>, i: nat, rest: set<Item>, all: set<Item>)
    requires Splits(list, i, rest, all) && i >= |list|
    ensures i == |list| && rest == {} && (set x | x in list) <= all
  {
  }

  class Wheel {
    var decayItems: seq<seq<Item>>
    var toDecayItems: seq<Item>
    var lastBucket: nat
    var tick: nat

    constructor ()
      ensures Valid() && decayItems == [[], [], [], []] && toDecayItems == [] && lastBucket == 0 && tick == 0
    {
      decayItems, toDecayItems, lastBucket, tick := [[], [], [], []], [], 0, 0;
    }

    ghost predicate Shape()
      reads this
    {
      |decayItems| == EVENT_DECAY_BUCKETS && lastBucket < EVENT_DECAY_BUCKETS
    }

    /** The items in the buckets. */
    ghost function Stored(): set<Item>
      reads this`decayItems
    {
      Union(decayItems)
    }

    ghost function InBucket(b: nat): set<Item>
      reads this`decayItems
      requires b < |decayItems|
    {
      set x | x in decayItems[b]
    }

    ghost function Queued(): set<Item>
      reads this`toDecayItems
    {
      set x | x in toDecayItems
    }

    ghost function Members(): set<Item>
      reads this
      requires Shape()
    {
      Queued() + Stored()
    }

    /** Every item in a bucket decays at its `due` tick. */
    ghost predicate BucketsOk()
      reads this`decayItems, this`lastBucket, this`tick, Stored()
    {
      && |decayItems| == EVENT_DECAY_BUCKETS && lastBucket < EVENT_DECAY_BUCKETS
      && forall b :: 0 <= b < EVENT_DECAY_BUCKETS ==> AllScheduled(decayItems[b], b, tick + Distance(b, lastBucket))
    }

    ghost predicate Valid()
      reads this, if Shape() then Members() else {}
    {
      Shape() && BucketsOk() && AllPending(toDecayItems)
    }

    /** `Game::internalDecayItem`: the item turns into its successor or is removed. */
    method InternalDecayItem(types: Types, item: Item)
      requires item.place == Out && item.CanDecay(types) && Shape() && AllPending(toDecayItems)
      modifies this`toDecayItems, item
      ensures AllPending(toDecayItems) && item.decays == old(item.decays) + [tick]
      ensures Succeeded(types, old(item.id), item)
      ensures item.place == Waiting <==> item.CanDecay(types)
      ensures if item.place == Waiting then toDecayItems == [item] + old(toDecayItems)
        else item.place == Out && toDecayItems == old(toDecayItems)
      decreases 1, 0
    {
      assert item !in toDecayItems;
      item.decays := item.decays + [tick];
      var it := types(item.id);
      if it.to != 0 {
        item.id := it.to;
        item.duration := types(it.to).time * 1000;
        item.decaying := false;
        StartDecay(types, item);
      } else {
        item.removed := true;
      }
    }

    /** `Game::startDecay`; an item that is decaying already is left alone. */
    method StartDecay(types: Types, item: Item)
      requires (item.decaying || item.place == Out) && Shape() && AllPending(toDecayItems)
      modifies this`toDecayItems, item
      ensures AllPending(toDecayItems)
      ensures old(item.decaying) ==> unchanged(this) && unchanged(item)
      ensures !old(item.decaying) ==>
        if item.place == Waiting then toDecayItems == [item] + old(toDecayItems)
          else item.place == Out && toDecayItems == old(toDecayItems)
      ensures !old(item.decaying) && old(item.CanDecay(types) && item.duration > 0) ==>
        item.place == Waiting && item.duration == old(item.duration) && item.id == old(item.id)
          && item.removed == old(item.removed)
        && item.unique == old(item.unique)
      ensures old(!item.CanDecay(types)) ==> unchanged(this) && unchanged(item)
      ensures !old(item.decaying) && old(item.CanDecay(types) && item.duration <= 0) ==> Succeeded(types, old(item.id), item)
      ensures item.decays == old(item.decays)
        + (if !old(item.decaying) && old(item.CanDecay(types) && item.duration <= 0) then [tick] else [])
      decreases if item.CanDecay(types) && item.duration <= 0 then 1 else 0, 1
    {
      if !item.CanDecay(types) { return; }
      if item.decaying { return; }
      assert item !in toDecayItems;
      if item.duration > 0 {
        item.decaying := true;
        item.place := Waiting;
        toDecayItems := [item] + toDecayItems;
      } else {
        InternalDecayItem(types, item);
      }
    }

    /** Starting a decay from outside keeps the wheel in order. */
    method Start(types: Types, item: Item)
      requires Valid() && (item.decaying || item.place == Out)
      modifies this`toDecayItems, item
      ensures Valid()
      ensures !old(item.decaying) && old(item.CanDecay(types) && item.duration > 0) ==>
        item in toDecayItems && item.duration == old(item.duration)
      ensures old(!item.decaying && !item.removed && !item.unique && item.duration > 0) && 0 <= types(old(item.id)).to
              && types(old(item.id)).time != 0 ==>
        item in toDecayItems
      ensures old(item.decaying || item.removed || item.unique) || types(old(item.id)).to < 0
              || types(old(item.id)).time == 0
        ==> unchanged(this) && unchanged(item)
    {
      assert !item.decaying ==> forall b, i :: 0 <= b < EVENT_DECAY_BUCKETS && 0 <= i < |decayItems[b]| ==>
        decayItems[b][i].Scheduled(b, tick + Distance(b, lastBucket)) && decayItems[b][i] != item;
      StartDecay(types, item);
    }

    /** Puts an item at the end of a bucket. */
    method PushBack(item: Item, b: nat, ghost visit: nat)
      requires Shape() && b < EVENT_DECAY_BUCKETS && AllScheduled(decayItems[b], b, visit)
      requires !item.place.Bucket? && item.duration > 0 && item.decaying
      modifies this`decayItems, item`place, item`due
      ensures Shape() && decayItems == old(decayItems)[b := old(decayItems[b]) + [item]]
      ensures Stored() == old(Stored()) + {item}
      ensures AllScheduled(decayItems[b], b, visit) && item.place == Bucket(b)
      ensures item.due == visit + Extra(item.duration)
    {
      assert forall i :: 0 <= i < |decayItems[b]| ==> decayItems[b][i].Scheduled(b, visit);
      UnionAppend(decayItems, b, item);
      hide Union;
      item.place, item.due := Bucket(b), visit + Extra(item.duration);
      decayItems := decayItems[b := decayItems[b] + [item]];
    }

    /** The loop of `cleanup` has dealt with all but `rest` of the waiting items `all`. */
    ghost predicate Entering(i: nat, rest: set<Item>, all: set<Item>, stored: set<Item>)
      reads this, all, if Shape() then Members() else {}
    {
      && rest <= all && Shape() && BucketsOk() && Splits(toDecayItems, i, rest, all)
      && Stored() == stored + (all - rest)
      && (forall x :: x in rest ==> x.Pending())
      && (forall x :: x in all - rest ==> x.place.Bucket? && x.due == tick + DueTick(x.duration))
    }

    method EnterStep(i: nat, ghost rest: set<Item>, ghost all: set<Item>, ghost stored: set<Item>)
      returns (ghost left: set<Item>)
      requires Entering(i, rest, all, stored) && i < |toDecayItems| && lastBucket < EVENT_DECAY_BUCKETS
      modifies this`decayItems, rest`place, rest`due
      ensures left < rest && Entering(i + 1, left, all, stored)
    {
      hide BucketsOk, AllScheduled, AllPending, DueTick, Extra, Distance, Splits, Union, Stored;
      var item := toDecayItems[i];
      var dur := item.duration;
      SplitsStep(toDecayItems, i, rest, all);
      DueTickIsVisit(dur);
      EntryDistance(lastBucket);
      left := rest - {item};
      if dur >= ROUND {
        Enter(item, lastBucket);
      } else {
        Enter(item, (lastBucket + 1 + dur / 1000) % EVENT_DECAY_BUCKETS);
      }
    }

    /** `Game::cleanup`: waiting items enter the bucket from which `DueTick` counts. */
    method Cleanup()
      requires Valid()
      modifies this`decayItems, this`toDecayItems, Queued()`place, Queued()`due
      ensures Valid() && toDecayItems == [] && Stored() == old(Members())
      ensures forall x :: x in old(Queued()) ==> x.place.Bucket? && x.due == tick + DueTick(x.duration)
    {
      ghost var all, rest, stored := Queued(), Queued(), Stored();
      assert Splits(toDecayItems, 0, rest, all) by { assert toDecayItems[0..] == toDecayItems; }
      EachPending(toDecayItems);
      hide BucketsOk, AllScheduled, AllPending, DueTick, Extra, Distance, Splits, Union, Stored;
      assert Entering(0, rest, all, stored);
      hide Entering, Queued;
      for i := 0 to |toDecayItems|
        invariant toDecayItems == old(toDecayItems) && Shape() && rest <= all && Entering(i, rest, all, stored)
      {
        rest := EnterStep(i, rest, all, stored);
      }
      AllEntered(|toDecayItems|, rest, all, stored);
      toDecayItems := [];
      NonePending();
    }

    lemma {:induction false} AllEntered(i: nat, rest: set<Item>, all: set<Item>, stored: set<Item>)
      requires Entering(i, rest, all, stored) && i >= |toDecayItems|
      ensures BucketsOk() && Stored() == stored + all
      ensures forall x :: x in all ==> x.place.Bucket? && x.due == tick + DueTick(x.duration)
    {
      AllSeen(toDecayItems, i, rest, all);
      hide BucketsOk, Union, Stored, DueTick, Splits;
    }

    lemma {:induction false} EachPending(s: seq<Item>)
      requires AllPending(s)
      ensures forall x :: x in s ==> x.Pending()
    {
    }

    lemma {:induction false} NonePending()
      ensures AllPending([])
    {
    }

    method Enter(item: Item, b: nat)
      requires BucketsOk() && b < EVENT_DECAY_BUCKETS && item.Pending()
      modifies this`decayItems, item`place, item`due
      ensures Shape() && Stored() == old(Stored()) + {item}
      ensures BucketsOk() && item.place == Bucket(b)
      ensures item.due == tick + Distance(b, lastBucket) + Extra(item.duration)
    {
      assert forall c, i :: 0 <= c < EVENT_DECAY_BUCKETS && 0 <= i < |decayItems[c]| ==>
        decayItems[c][i].Scheduled(c, tick + Distance(c, lastBucket)) && decayItems[c][i] != item;
      PushBack(item, b, tick + Distance(b, lastBucket));
      forall c | 0 <= c < EVENT_DECAY_BUCKETS && c != b
        ensures AllScheduled(decayItems[c], c, tick + Distance(c, lastBucket))
      {
        assert decayItems[c] == old(decayItems)[c];
        assert old(AllScheduled(decayItems[c], c, tick + Distance(c, lastBucket)));
      }
    }

    /** The state while `bucket` is scanned in tick `tick`: its first `i` items have been seen and stay; item `i`
      may be in the middle of a change. */
    ghost predicate ScanningBut(bucket: nat, i: nat)
      reads this, if Shape() then Members() else {}
    {
      && Shape() && bucket < EVENT_DECAY_BUCKETS && i <= |decayItems[bucket]| && AllPending(toDecayItems)
      && Distinct(decayItems[bucket])
      && (forall k :: 0 <= k < |decayItems[bucket]| ==> decayItems[bucket][k].place == Bucket(bucket))
      && (forall k :: 0 <= k < |decayItems[bucket]| && k != i ==>
            decayItems[bucket][k].Scheduled(bucket, if k < i then tick + EVENT_DECAY_BUCKETS else tick))
      && (forall b :: 0 <= b < EVENT_DECAY_BUCKETS && b != bucket ==>
        AllScheduled(decayItems[b], b, tick + Ahead(b, bucket)))
    }

    ghost predicate Scanning(bucket: nat, i: nat)
      reads this, if Shape() then Members() else {}
    {
      ScanningBut(bucket, i) && (i < |decayItems[bucket]| ==> decayItems[bucket][i].Scheduled(bucket, tick))
    }

    /** Takes item `i` out of the bucket that is being scanned. */
    method Erase(bucket: nat, i: nat, item: Item)
      requires ScanningBut(bucket, i) && i < |decayItems[bucket]| && item == decayItems[bucket][i]
      modifies this`decayItems, item`place
      ensures Scanning(bucket, i) && item.place == Out && Stored() == old(Stored()) - {item}
      ensures decayItems == old(decayItems)[bucket := old(decayItems[bucket])[..i] + old(decayItems[bucket])[i + 1..]]
    {
      OnlyHere(bucket, i);
      UnionErase(decayItems, bucket, i);
      DistinctErase(decayItems[bucket], i);
      var list := decayItems[bucket];
      hide Union, Extra, Ahead, AllPending, Distinct;
      item.place := Out;
      forall k | 0 <= k < |list| && k != i
        ensures list[k] != item && list[k].Scheduled(bucket, if k < i then tick + EVENT_DECAY_BUCKETS else tick)
      {
        assert old(list[k].Scheduled(bucket, if k < i then tick + EVENT_DECAY_BUCKETS else tick));
      }
      forall b | 0 <= b < EVENT_DECAY_BUCKETS && b != bucket
        ensures AllScheduled(decayItems[b], b, tick + Ahead(b, bucket))
      {
        assert old(AllScheduled(decayItems[b], b, tick + Ahead(b, bucket)));
      }
      assert AllPending(toDecayItems);
      hide AllScheduled;
      decayItems := decayItems[bucket := list[..i] + list[i + 1..]];
      forall k | 0 <= k < |decayItems[bucket]|
        ensures decayItems[bucket][k].Scheduled(bucket, if k < i then tick + EVENT_DECAY_BUCKETS else tick)
      {
        assert decayItems[bucket][k] == list[if k < i then k else k + 1];
      }
    }

    lemma {:induction false} OnlyHere(bucket: nat, i: nat)
      requires ScanningBut(bucket, i) && i < |decayItems[bucket]|
      ensures forall b, k :: 0 <= b < EVENT_DECAY_BUCKETS && 0 <= k < |decayItems[b]| && !(b == bucket && k == i) ==>
        decayItems[b][k] != decayItems[bucket][i]
      ensures decayItems[bucket][i] !in toDecayItems
    {
      assert decayItems[bucket][i].place == Bucket(bucket);
      forall b, k | 0 <= b < EVENT_DECAY_BUCKETS && 0 <= k < |decayItems[b]| && b != bucket
        ensures decayItems[b][k].place == Bucket(b)
      {
        assert AllScheduled(decayItems[b], b, tick + Ahead(b, bucket));
      }
    }

    /** A change of item `i` alone. */
    method Change(bucket: nat, i: nat, item: Item, duration: int, decaying: bool)
      requires Scanning(bucket, i) && i < |decayItems[bucket]| && item == decayItems[bucket][i]
      modifies item`duration, item`decaying
      ensures ScanningBut(bucket, i) && item.duration == duration && item.decaying == decaying
      ensures item.place == Bucket(bucket) && old(item.duration) > 0 && old(item.decaying)
      ensures item.due == tick + Extra(old(item.duration))
      ensures item.Scheduled(bucket, tick + EVENT_DECAY_BUCKETS) ==> Scanning(bucket, i + 1)
    {
      OnlyHere(bucket, i);
      item.duration, item.decaying := duration, decaying;
      forall b | 0 <= b < EVENT_DECAY_BUCKETS && b != bucket
        ensures AllScheduled(decayItems[b], b, tick + Ahead(b, bucket))
      {
        assert old(AllScheduled(decayItems[b], b, tick + Ahead(b, bucket)));
      }
    }

    /** An erased item decays. */
    method Vanish(types: Types, bucket: nat, i: nat, item: Item)
      requires Scanning(bucket, i) && item.place == Out && item.CanDecay(types)
      modifies this`toDecayItems, item
      ensures Scanning(bucket, i) && item.decays == old(item.decays) + [tick] && !item.place.Bucket?
      ensures Succeeded(types, old(item.id), item)
      ensures toDecayItems == old(toDecayItems) || toDecayItems == [item] + old(toDecayItems)
    {
      NotHere(bucket, i, item);
      InternalDecayItem(types, item);
    }

    lemma {:induction false} NotHere(bucket: nat, i: nat, item: Item)
      requires Scanning(bucket, i) && item.place == Out
      ensures forall b, k :: 0 <= b < EVENT_DECAY_BUCKETS && 0 <= k < |decayItems[b]| ==> decayItems[b][k] != item
      ensures item !in toDecayItems
    {
      forall b, k | 0 <= b < EVENT_DECAY_BUCKETS && 0 <= k < |decayItems[b]|
        ensures decayItems[b][k].place == Bucket(b)
      {
        if b != bucket { assert AllScheduled(decayItems[b], b, tick + Ahead(b, bucket)); }
      }
    }

    /** An erased item goes on in the next bucket, which is not the one being scanned. */
    method Append(bucket: nat, i: nat, newBucket: nat, item: Item)
      requires Scanning(bucket, i) && newBucket == (bucket + 1) % EVENT_DECAY_BUCKETS
      requires item.place == Out && item.decaying && 0 < item.duration < ROUND
      modifies this`decayItems, item`place, item`due
      ensures Scanning(bucket, i) && item.place == Bucket(newBucket) && item.due == tick + 1
      ensures Stored() == old(Stored()) + {item}
      ensures decayItems == old(decayItems)[newBucket := old(decayItems[newBucket]) + [item]]
    {
      NotHere(bucket, i, item);
      PushBack(item, newBucket, tick + 1);
      forall b | 0 <= b < EVENT_DECAY_BUCKETS && b != bucket
        ensures AllScheduled(decayItems[b], b, tick + Ahead(b, bucket))
      {
        assert old(AllScheduled(decayItems[b], b, tick + Ahead(b, bucket)));
      }
    }

    /** With less than a round left an item decays now or goes on in the next bucket. */
    method LastFraction(types: Types, bucket: nat, i: nat, item: Item, duration: int)
      requires Scanning(bucket, i) && bucket < |decayItems| && i <= |decayItems[bucket]|
      requires item.place == Out && item.decaying && item.CanDecay(types) && 0 < item.duration == duration < ROUND
      requires item.due == tick + if duration >= 875 then 1 else 0
      modifies this`decayItems, this`toDecayItems, item
      ensures Scanning(bucket, i) && |decayItems| == |old(decayItems)| && decayItems[bucket] == old(decayItems[bucket])
      ensures Stored() == if item.place.Bucket? then old(Stored()) + {item} else old(Stored())
      ensures toDecayItems == old(toDecayItems) || toDecayItems == [item] + old(toDecayItems)
      ensures if old(item.due) == tick then !item.place.Bucket? && item.decays == old(item.decays) + [tick]
        && Succeeded(types, old(item.id), item)
        else item.place.Bucket? && ProspectOf(types, item) == old(ProspectOf(types, item))
    {
      assert bucket < EVENT_DECAY_BUCKETS && |decayItems| == EVENT_DECAY_BUCKETS;
      hide Scanning, ScanningBut, Extra, Union, Stored;
      var newBucket := (bucket + (duration + EVENT_DECAYINTERVAL / 2) / 1000) % EVENT_DECAY_BUCKETS;
      if newBucket == bucket {
        Vanish(types, bucket, i, item);
      } else {
        Append(bucket, i, newBucket, item);
      }
    }

    /** One turn of the loop of `checkDecay`. */
    method ScanItem(types: Types, bucket: nat, i: nat, item: Item) returns (next: nat)
      requires Scanning(bucket, i) && bucket < |decayItems| && i < |decayItems[bucket]| && item == decayItems[bucket][i]
      modifies this`decayItems, this`toDecayItems, item
      ensures Scanning(bucket, next) && Settled(types, item, old(ProspectOf(types, item)), tick)
      ensures |decayItems| == |old(decayItems)|
      ensures Stored() == if item.place.Bucket? then old(Stored()) else old(Stored()) - {item}
      ensures Queued() <= old(Queued()) + {item}
      ensures var before := old(decayItems[bucket]);
        if next == i then decayItems[bucket] == before[..i] + before[i + 1..]
          else next == i + 1 && decayItems[bucket] == before
    {
      assert bucket < EVENT_DECAY_BUCKETS && |decayItems| == EVENT_DECAY_BUCKETS;
      ghost var extra := Extra(item.duration);
      assert extra == if item.duration <= ROUND then 0
        else if item.duration - ROUND >= ROUND then EVENT_DECAY_BUCKETS + Extra(item.duration - ROUND)
        else if item.duration - ROUND >= 875 then 1 else 0;
      hide Scanning, ScanningBut, Extra, Union, Stored;
      next := i;
      if !item.CanDecay(types) {
        Change(bucket, i, item, item.duration, false);
        Erase(bucket, i, item);
        return;
      }
      var duration := item.duration;
      var decreaseTime := if ROUND < duration then ROUND else duration;
      duration := duration - decreaseTime;
      Change(bucket, i, item, item.duration - decreaseTime, item.decaying);
      if duration <= 0 {
        Erase(bucket, i, item);
        Vanish(types, bucket, i, item);
      } else if duration < ROUND {
        Erase(bucket, i, item);
        LastFraction(types, bucket, i, item, duration);
      } else {
        next := i + 1;
      }
    }

    /** The loop of `checkDecay` has dealt with all but `rest` of the items `all` of the bucket, which once were
      `was`; `queued` and `stored` are the items that were waiting and stored before. */
    ghost predicate Halfway(types: Types, bucket: nat, i: nat, rest: set<Item>, all: set<Item>,
                            was: map<Item, Prospect>, queued: set<Item>, stored: set<Item>)
      requires rest <= all <= was.Keys
      reads this, all, if Shape() then Members() else {}
    {
      && Scanning(bucket, i) && Splits(decayItems[bucket], i, rest, all)
      && (forall x :: x in rest ==> ProspectOf(types, x) == was[x])
      && (forall x :: x in all - rest ==> Settled(types, x, was[x], tick))
      && Queued() <= queued + all && stored - (all - rest) <= Stored() <= stored
      && (forall x :: x in all - rest && x.place.Bucket? && x in stored ==> x in Stored())
    }

    /** The body of the loop of `checkDecay`. */
    method ScanStep(types: Types, bucket: nat, i: nat, ghost rest: set<Item>, ghost all: set<Item>,
                    ghost was: map<Item, Prospect>, ghost queued: set<Item>, ghost stored: set<Item>)
      returns (next: nat, ghost left: set<Item>)
      requires rest <= all <= was.Keys && Halfway(types, bucket, i, rest, all, was, queued, stored)
      requires Shape() && bucket < EVENT_DECAY_BUCKETS && i < |decayItems[bucket]|
      modifies this`decayItems, this`toDecayItems, rest
      ensures left < rest && Shape() && Halfway(types, bucket, next, left, all, was, queued, stored)
    {
      hide ScanningBut, Scanning, AllScheduled, AllPending, Distinct, Splits, Union, Stored, Queued, Settled,
           ProspectOf;
      var item := decayItems[bucket][i];
      SplitsStep(decayItems[bucket], i, rest, all);
      assert ProspectOf(types, item) == was[item];
      left := rest - {item};
      next := ScanItem(types, bucket, i, item);
    }

    /** The loop of `checkDecay`: nothing is added to the bucket that is scanned. */
    method ScanBucket(types: Types, bucket: nat)
      requires Scanning(bucket, 0)
      modifies this`decayItems, this`toDecayItems, decayItems[bucket]
      ensures Shape() && Scanning(bucket, |decayItems[bucket]|)
      ensures forall x :: x in old(InBucket(bucket)) ==> Settled(types, x, old(ProspectOf(types, x)), tick)
      ensures InBucket(bucket) <= old(InBucket(bucket)) && Queued() <= old(Queued()) + old(InBucket(bucket))
      ensures old(Stored()) - old(InBucket(bucket)) <= Stored() <= old(Stored())
      ensures forall x :: x in old(InBucket(bucket)) && x.place.Bucket? && x in old(Stored()) ==> x in Stored()
    {
      ghost var all, was := Unseen(types, bucket);
      ghost var rest, queued, stored := all, Queued(), Stored();
      hide Halfway, Scanning, ScanningBut, Splits, Union, Stored, Queued, Settled, ProspectOf, InBucket, AllPending;
      var i: nat := 0;
      while i < |decayItems[bucket]|
        invariant Shape() && rest <= all && Halfway(types, bucket, i, rest, all, was, queued, stored)
        decreases rest
      {
        i, rest := ScanStep(types, bucket, i, rest, all, was, queued, stored);
      }
      Scanned(types, bucket, i, rest, all, was, queued, stored);
    }

    /** Before the first turn. */
    lemma {:induction false} Unseen(types: Types, bucket: nat) returns (all: set<Item>, was: map<Item, Prospect>)
      requires Scanning(bucket, 0)
      ensures Shape() && bucket < EVENT_DECAY_BUCKETS && all == InBucket(bucket) && all == was.Keys
      ensures forall x :: x in all ==> was[x] == ProspectOf(types, x)
      ensures Halfway(types, bucket, 0, all, all, was, Queued(), Stored())
      ensures forall x :: x in all ==> x in decayItems[bucket]
    {
      all := InBucket(bucket);
      was := map x | x in all :: ProspectOf(types, x);
      assert decayItems[bucket][0..] == decayItems[bucket];
    }

    lemma {:induction false} Scanned(types: Types, bucket: nat, i: nat, rest: set<Item>, all: set<Item>,
                                     was: map<Item, Prospect>, queued: set<Item>, stored: set<Item>)
      requires rest <= all <= was.Keys && Halfway(types, bucket, i, rest, all, was, queued, stored)
      requires Shape() && bucket < EVENT_DECAY_BUCKETS && i >= |decayItems[bucket]|
      ensures Scanning(bucket, |decayItems[bucket]|) && InBucket(bucket) <= all && Queued() <= queued + all
      ensures forall x :: x in all ==> Settled(types, x, was[x], tick)
      ensures stored - all <= Stored() <= stored && forall x :: x in all && x.place.Bucket? && x in stored ==> x in Stored()
    {
      AllSeen(decayItems[bucket], i, rest, all);
      hide ScanningBut, Scanning, Distinct, Splits, Union, Stored, Queued, Settled, ProspectOf;
    }

    /** The bucket whose turn it is. */
    method BeginTick() returns (bucket: nat)
      requires Valid()
      modifies this`tick
      ensures bucket == (lastBucket + 1) % EVENT_DECAY_BUCKETS && tick == old(tick) + 1 && Scanning(bucket, 0)
      ensures Shape() && InBucket(bucket) <= Stored()
      ensures forall x :: x in Stored() ==> if x in InBucket(bucket) then tick <= x.due else x.place.Bucket? && tick < x.due
    {
      bucket := (lastBucket + 1) % EVENT_DECAY_BUCKETS;
      SeenFrom(bucket);
      DueAhead(bucket);
      hide Distance, Ahead, Extra, AllPending, AllScheduled, Union, BucketsOk;
      tick := tick + 1;
    }

    /** The buckets, seen from the next tick. */
    lemma {:induction false} SeenFrom(bucket: nat)
      requires Valid() && bucket == (lastBucket + 1) % EVENT_DECAY_BUCKETS
      ensures forall b :: 0 <= b < EVENT_DECAY_BUCKETS ==> AllScheduled(decayItems[b], b, tick + 1 + Ahead(b, bucket))
      ensures Distinct(decayItems[bucket])
      ensures forall k :: 0 <= k < |decayItems[bucket]| ==> decayItems[bucket][k].Scheduled(bucket, tick + 1)
    {
      hide Distance, Ahead, Extra, AllPending, Union;
      forall b | 0 <= b < EVENT_DECAY_BUCKETS
        ensures AllScheduled(decayItems[b], b, tick + 1 + Ahead(b, bucket))
      {
        AheadOfDistance(b, lastBucket);
        assert AllScheduled(decayItems[b], b, tick + Distance(b, lastBucket));
      }
      AheadOfItself(bucket, bucket);
    }

    lemma {:induction false} DueAhead(bucket: nat)
      requires Valid() && bucket == (lastBucket + 1) % EVENT_DECAY_BUCKETS
      ensures InBucket(bucket) <= Stored()
      ensures forall x :: x in Stored() ==>
        if x in InBucket(bucket) then tick + 1 <= x.due else x.place.Bucket? && tick + 1 < x.due
    {
      SeenFrom(bucket);
      hide Distance, Ahead, Extra, AllPending;
      forall x | x in Stored()
        ensures if x in InBucket(bucket) then tick + 1 <= x.due else x.place.Bucket? && tick + 1 < x.due
      {
        var b, k :| 0 <= b < |decayItems| && 0 <= k < |decayItems[b]| && decayItems[b][k] == x;
        AheadOfItself(b, bucket);
        assert decayItems[b][k].Scheduled(b, tick + 1 + Ahead(b, bucket));
      }
      forall x | x in InBucket(bucket)
        ensures x in Stored()
      {
        var k :| 0 <= k < |decayItems[bucket]| && decayItems[bucket][k] == x;
      }
    }

    method EndTick(bucket: nat)
      requires Shape() && bucket < EVENT_DECAY_BUCKETS && Scanning(bucket, |decayItems[bucket]|)
      modifies this`lastBucket
      ensures Valid() && Shape() && lastBucket == bucket
      ensures forall x :: x in Queued() ==> x.place == Waiting
    {
      lastBucket := bucket;
      forall b | 0 <= b < EVENT_DECAY_BUCKETS
        ensures AllScheduled(decayItems[b], b, tick + Distance(b, lastBucket))
      {
        if b != bucket { assert AllScheduled(decayItems[b], b, tick + Ahead(b, bucket)); }
      }
    }

    /** `checkDecay` up to its call of `cleanup`. */
    method Turn(types: Types)
      requires Valid() && Shape()
      modifies this, Members()
      ensures Valid() && tick == old(tick) + 1
      ensures Queued() + Stored() <= old(Members()) && forall x :: x in Queued() ==> x.place == Waiting
      ensures Shape() && forall x :: x in old(Stored()) && x.place.Bucket? ==> x in Stored()
      ensures forall x :: x in old(Stored()) ==> AfterTick(types, x, tick)
    {
      hide Valid, Scanning, ScanningBut, AllScheduled, Distance, Ahead;
      var bucket := BeginTick();
      ghost var scanned := InBucket(bucket);
      label Begun:
      ScanBucket(types, bucket);
      EndTick(bucket);
      forall x | x in old(Stored())
        ensures AfterTick(types, x, tick)
      {
        if x in scanned {
          assert Settled(types, x, old@Begun(ProspectOf(types, x)), tick);
        } else {
          assert unchanged(x);
        }
      }
    }

    /** `Game::checkDecay`: of the items in the wheel exactly those that are due in this tick decay; all
      others keep their due tick, which is still to come. */
    method CheckDecay(types: Types)
      requires Valid()
      modifies this, Members()
      ensures Valid() && tick == old(tick) + 1 && toDecayItems == [] && Shape() && Members() <= old(Members())
      ensures forall x :: x in old(Stored()) && old(x.CanDecay(types)) && old(x.due) != tick ==> x in Stored()
      ensures forall x :: x in old(Stored()) ==> AfterTick(types, x, tick)
    {
      hide Valid, AllScheduled;
      assert Shape() by { ShapeOk(); }
      Turn(types);
      label Turned:
      Cleanup();
      assert Shape() by { ShapeOk(); }
      forall x | x in old(Stored())
        ensures AfterTick(types, x, tick)
      {
        assert old@Turned(x.place).Bucket? ==> x.place == old@Turned(x.place) && x.due == old@Turned(x.due);
      }
    }

    /** Tick after tick, whatever else is in the wheel: an item decays for the first time exactly when it is due,
      and is in the wheel until then. */
    method TickUntilDue(types: Types, x: Item, due: nat)
      requires Valid() && Shape() && x in Stored() && x.CanDecay(types) && tick < x.due == due
      modifies this, Members()
      ensures tick == due && x.decays == old(x.decays) + [tick] && Succeeded(types, old(x.id), x)
    {
      hide Valid, Stored, Item.CanDecay;
      while tick < due
        invariant Shape() && Valid() && Members() <= old(Members()) && tick <= due
        invariant tick < due ==> x in Stored() && x.CanDecay(types) && x.due == due
        invariant tick < due ==> x.decays == old(x.decays) && x.id == old(x.id)
        invariant tick == due ==> x.decays == old(x.decays) + [tick] && Succeeded(types, old(x.id), x)
      {
        CheckDecay(types);
        assert Shape() by { ShapeOk(); }
      }
    }

    lemma {:induction false} ShapeOk()
      requires Valid()
      ensures Shape()
    {
    }
  }

  /** The item, once of type `id`, has become its successor, or was removed when it has none. */
  ghost predicate Succeeded(types: Types, id: nat, x: Item)
    reads x
  {
    if types(id).to != 0 then x.id == types(id).to && !x.removed else x.id == id && x.removed
  }

  /** Between the two states the wheel went through tick `now`. */
  twostate predicate AfterTick(types: Types, x: Item, now: nat)
    reads x
  {
    && (old(x.CanDecay(types)) ==> x.decays == old(x.decays) + if old(x.due) == now then [now] else [])
    && (old(x.CanDecay(types)) && old(x.due) == now ==> Succeeded(types, old(x.id), x))
    && ((old(x.CanDecay(types)) ==> old(x.due) != now) ==> x.id == old(x.id))
    && (old(x.CanDecay(types)) && old(x.due) != now ==>
      x.place.Bucket? && x.CanDecay(types) && x.due == old(x.due) && now < x.due)
    && (!old(x.CanDecay(types)) ==> x.decays == old(x.decays))
  }

  /** What the decay of an item depends on, and its decays so far. */
  datatype Prospect = Prospect(id: nat, canDecay: bool, due: nat, decays: seq<nat>)

  ghost function ProspectOf(types: Types, x: Item): Prospect
    reads x
  {
    Prospect(x.id, x.CanDecay(types), x.due, x.decays)
  }

  /** The item, once `p`, was scanned in tick `now`: it decayed exactly if that was due. */
  ghost predicate Settled(types: Types, x: Item, p: Prospect, now: nat)
    reads x
  {
    if !p.canDecay then !x.place.Bucket? && x.decays == p.decays && x.id == p.id
    else if p.due == now then !x.place.Bucket? && x.decays == p.decays + [now] && Succeeded(types, p.id, x)
    else x.place.Bucket? && ProspectOf(types, x) == p
  }

  /** Buckets from `bucket` forward to `b`. */
  function Ahead(b: nat, bucket: nat): nat {
    (b + EVENT_DECAY_BUCKETS - bucket) % EVENT_DECAY_BUCKETS
  }

  lemma {:induction false} AheadOfDistance(b: nat, last: nat)
    requires b < EVENT_DECAY_BUCKETS && last < EVENT_DECAY_BUCKETS
    ensures Distance(b, last) == 1 + Ahead(b, (last + 1) % EVENT_DECAY_BUCKETS)
  {
  }

  lemma {:induction false} AheadOfItself(b: nat, bucket: nat)
    requires b < EVENT_DECAY_BUCKETS && bucket < EVENT_DECAY_BUCKETS
    ensures Ahead(b, bucket) == 0 <==> b == bucket
  {
  }

  lemma {:induction false} EntryDistance(last: nat)
    requires last < EVENT_DECAY_BUCKETS
    ensures Distance(last, last) == EVENT_DECAY_BUCKETS && Distance((last + 1) % EVENT_DECAY_BUCKETS, last) == 1
  {
  }
}
