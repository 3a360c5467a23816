/** Conditions and what they add to a creature (src/creature.cpp `addCondition`, `removeCondition`,
  `executeConditions`; src/condition.cpp `ConditionSpeed`, `ConditionAttributes`; src/game.cpp
  `changeSpeed`; src/player.h).

  Speed and attribute conditions change numbers of the creature when they start, when they are
  merged with a new one of the same key, and when they end.  The ledger says that each number is its
  baseline plus the sum of what the active conditions stand for, and every operation keeps it. */
module ConditionLedger {
  import opened Wrappers
  import opened Enums
  import F = ItemForest

  const NUMBERS := 1 + SKILLS + SPECIAL_SKILLS + STATS

  const CONDITION_HASTE := 0x10
  const CONDITION_PARALYZE := 0x20

  datatype Kind = Speed | Attributes | Other

  /** The key under which a creature has at most one condition. */
  datatype Key = Key(conditionType: nat, id: int, subId: nat)

  /** A percentage of a base value, cut off towards zero. */
  function PercentOf(base: int, percent: int): int {
    var v := base * (percent - 100);
    if v >= 0 then v / 100 else -(-v / 100)
  }

  /** The percentage above or below a hundred of the base, to within one and never further from zero: a hundred changes
    nothing, two hundred adds the base, and zero takes it away. */
  lemma {:induction false} PercentIs(base: int, percent: int)
    ensures var v, r := base * (percent - 100), PercentOf(base, percent);
      (0 <= v ==> 100 * r <= v < 100 * r + 100) && (v <= 0 ==> 100 * r - 100 < v <= 100 * r)
    ensures PercentOf(base, 100) == 0 && PercentOf(base, 200) == base && PercentOf(base, 0) == -base
  {
    assert base * (100 - 100) == 0;
    assert base * (200 - 100) == 100 * base;
    assert base * (0 - 100) == -100 * base;
  }

  predicate Matches(c: Condition, conditionType: nat, conditionId: Option<int>) {
    c.key.conditionType == conditionType && (conditionId.Some? ==> c.key.id == conditionId.value)
  }

  /** The conditions that a removal leaves. */
  function Unmatched(s: seq<Condition>, conditionType: nat, conditionId: Option<int>): seq<Condition> {
    if s == [] then [] else
      (if Matches(s[0], conditionType, conditionId) then [] else [s[0]]) + Unmatched(s[1..], conditionType, conditionId)
  }

  datatype Terms = Terms(speedDelta: int, skills: seq<int>, skillsPercent: seq<int>, specialSkills: seq<int>,
                         stats: seq<int>, statsPercent: seq<int>)

  /** `r` are the values, where a percentage replaces a value, but for those in `fixed`, by that share of the base. */
  ghost predicate Scaled(r: seq<int>, values: seq<int>, percent: seq<int>, base: seq<int>, fixed: set<nat>) {
    |r| == |values| == |percent| == |base|
    && forall i :: 0 <= i < |r| ==>
      r[i] == if percent[i] == 0 || i in fixed then values[i] else PercentOf(base[i], percent[i])
  }

  /** `r` are the terms of a condition of this kind once they are worked out for a creature. */
  ghost predicate WorkedOut(r: Terms, t: Terms, kind: Kind, player: bool, ctx: Context) {
    && r.skillsPercent == t.skillsPercent && r.specialSkills == t.specialSkills && r.statsPercent == t.statsPercent
    && r.speedDelta == (if kind == Speed && t.speedDelta == 0 then ctx.rolled else t.speedDelta)
    && if kind == Attributes && player
       then Scaled(r.skills, t.skills, t.skillsPercent, ctx.baseSkills, {})
         && Scaled(r.stats, t.stats, t.statsPercent, ctx.baseStats, {STAT_SOULPOINTS})
       else r.skills == t.skills && r.stats == t.stats
  }

  class Condition {
    const kind: Kind
    const key: Key
    var ticks: int
    var endTime: int
    var speedDelta: int
    var skills: seq<int>
    var skillsPercent: seq<int>
    var specialSkills: seq<int>
    var stats: seq<int>
    var statsPercent: seq<int>

    constructor (kind: Kind, key: Key, ticks: int, speedDelta: int, skills: seq<int>, skillsPercent: seq<int>,
                 specialSkills: seq<int>, stats: seq<int>, statsPercent: seq<int>)
      requires |skills| == |skillsPercent| == SKILLS && |specialSkills| == SPECIAL_SKILLS
      requires |stats| == |statsPercent| == STATS
      ensures this.kind == kind && this.key == key && this.ticks == ticks && this.endTime == 0 && Valid()
      ensures Values() == Terms(speedDelta, skills, skillsPercent, specialSkills, stats, statsPercent)
    {
      this.kind, this.key, this.ticks, this.endTime, this.speedDelta := kind, key, ticks, 0, speedDelta;
      this.skills, this.skillsPercent, this.specialSkills := skills, skillsPercent, specialSkills;
      this.stats, this.statsPercent := stats, statsPercent;
    }

    predicate Valid()
      reads this
    {
      |skills| == |skillsPercent| == SKILLS && |specialSkills| == SPECIAL_SKILLS && |stats| == |statsPercent| == STATS
    }

    /** What the condition adds to number `k` of a player, or to the speed of any creature. */
    function Effect(player: bool, k: nat): int
      reads this
      requires Valid() && k < NUMBERS
    {
      match kind
      case Speed => if k == 0 then speedDelta else 0
      case Other => 0
      case Attributes =>
        if k == 0 || !player then 0
        else if k < 1 + SKILLS then skills[k - 1]
        else if k < 1 + SKILLS + SPECIAL_SKILLS then specialSkills[k - 1 - SKILLS]
        else stats[k - 1 - SKILLS - SPECIAL_SKILLS]
    }

    /** What the condition is to add, before and after its formula and percentages are worked out. */
    function Values(): Terms
      reads this
    {
      Terms(speedDelta, skills, skillsPercent, specialSkills, stats, statsPercent)
    }

    predicate InForce(conditionType: nat, subId: nat, now: int)
      reads this
    {
      key.conditionType == conditionType && key.subId == subId && (endTime >= now || ticks == -1)
    }

    /** Whether the condition takes over the terms of a new one: speed prevails by a simpler rule. */
    predicate Yields(add: Condition, now: int)
      reads this, add
    {
      if kind == Speed then !(ticks == -1 && add.ticks > 0) else Updates(add, now)
    }

    /** `Condition::updateCondition` */
    predicate Updates(add: Condition, now: int)
      reads this, add
    {
      && key.conditionType == add.key.conditionType
      && !(ticks == -1 && add.ticks > 0)
      && !(add.ticks >= 0 && endTime > now + add.ticks)
    }
  }

  /** The loop of `updateSkills`, `updateStats` and `endCondition` over one group of numbers. */
  method Added(numbers: seq<int>, values: seq<int>, sign: int) returns (r: seq<int>)
    requires |numbers| == |values|
    ensures |r| == |numbers| && forall i :: 0 <= i < |r| ==> r[i] == numbers[i] + sign * values[i]
  {
    r := numbers;
    for i := 0 to |values|
      invariant |r| == |numbers|
      invariant forall k :: 0 <= k < |r| ==> r[k] == if k < i then numbers[k] + sign * values[k] else numbers[k]
    {
      if values[i] != 0 {
        r := r[i := r[i] + sign * values[i]];
      }
    }
  }

  /** `updatePercentSkills` and `updatePercentStats`: a value with a percentage is worked out from the base. */
  method FromPercent(values: seq<int>, percent: seq<int>, base: seq<int>, fixed: set<nat>) returns (r: seq<int>)
    requires |values| == |percent| == |base|
    ensures Scaled(r, values, percent, base, fixed)
  {
    r := values;
    for i := 0 to |values|
      invariant |r| == |values|
      invariant forall k :: 0 <= k < |r| ==>
        r[k] == if k < i && percent[k] != 0 && k !in fixed then PercentOf(base[k], percent[k]) else values[k]
    {
      if percent[i] == 0 || i in fixed { continue; }
      r := r[i := PercentOf(base[i], percent[i])];
    }
  }

  /** The effects of a list of conditions on one number. */
  function Effects(player: bool, s: seq<Condition>, k: nat): seq<int>
    reads s
    requires k < NUMBERS && forall c :: c in s ==> c.Valid()
  {
    seq(|s|, i requires 0 <= i < |s| && s[i].Valid() reads s => s[i].Effect(player, k))
  }

  /** Values of a creature that are not part of it here, and chance. */
  datatype Context = Context(
    now: int, walkDelay: int, suppressions: set<nat>, rolled: int, baseSkills: seq<int>, baseStats: seq<int>)

  ghost predicate Distinct<T>(s: seq<T>) {
    forall i, j :: 0 <= i < j < |s| ==> s[i] != s[j]
  }

  /** The conditions that are not among those gone, in order. */
  function Kept(s: seq<Condition>, gone: set<Condition>): (r: seq<Condition>)
    ensures forall i :: 0 <= i < |r| ==> r[i] in s && r[i] !in gone
  {
    if s == [] then [] else (if s[0] in gone then [] else [s[0]]) + Kept(s[1..], gone)
  }

  lemma {:induction false} KeptJoined(s: seq<Condition>, c: Condition, gone: set<Condition>)
    ensures Kept(s + [c], gone) == Kept(s, gone) + if c in gone then [] else [c]
  {
    if s != [] {
      assert (s + [c])[1..] == s[1..] + [c];
      KeptJoined(s[1..], c, gone);
    }
  }

  /** The condition at `i` either stays where it is behind the ones kept so far, or is taken out there. */
  lemma {:induction false} OneMoreKept(s: seq<Condition>, i: nat, gone: set<Condition>)
    requires i < |s|
    ensures var kept := Kept(s[..i], gone); var t := kept + s[i..];
      && |kept| < |t| && t[|kept|] == s[i]
      && (s[i] !in gone ==> t == Kept(s[..i + 1], gone) + s[i + 1..])
      && (s[i] in gone ==> t[..|kept|] + t[|kept| + 1..] == Kept(s[..i + 1], gone) + s[i + 1..])
  {
    assert s[..i + 1] == s[..i] + [s[i]];
    assert s[i..] == [s[i]] + s[i + 1..];
    KeptJoined(s[..i], s[i], gone);
  }

  class Creature {
    const player: bool
    var conditions: seq<Condition>
    var varSpeed: int
    var varSkills: seq<int>
    var varSpecialSkills: seq<int>
    var varStats: seq<int>
    /** The numbers without any condition. */
    ghost var baseline: seq<int>

    constructor (player: bool, varSpeed: int, varSkills: seq<int>, varSpecialSkills: seq<int>, varStats: seq<int>)
      requires |varSkills| == SKILLS && |varSpecialSkills| == SPECIAL_SKILLS && |varStats| == STATS
      ensures Valid() && conditions == [] && this.player == player && this.varSpeed == varSpeed
      ensures this.varSkills == varSkills && this.varSpecialSkills == varSpecialSkills && this.varStats == varStats
    {
      this.player, conditions := player, [];
      this.varSpeed, this.varSkills, this.varSpecialSkills, this.varStats := varSpeed, varSkills, varSpecialSkills, varStats;
      baseline := [varSpeed] + varSkills + varSpecialSkills + varStats;
    }

    predicate Shape()
      reads this, conditions
    {
      && |varSkills| == SKILLS && |varSpecialSkills| == SPECIAL_SKILLS && |varStats| == STATS
      && forall c :: c in conditions ==> c.Valid()
    }

    function Number(k: nat): int
      reads this
      requires k < NUMBERS && |varSkills| == SKILLS && |varSpecialSkills| == SPECIAL_SKILLS && |varStats| == STATS
    {
      if k == 0 then varSpeed
      else if k < 1 + SKILLS then varSkills[k - 1]
      else if k < 1 + SKILLS + SPECIAL_SKILLS then varSpecialSkills[k - 1 - SKILLS]
      else varStats[k - 1 - SKILLS - SPECIAL_SKILLS]
    }

    /** Number `k` is off by `diff` from what the conditions account for. */
    ghost predicate Balanced(k: nat, diff: int)
      reads this, conditions
      requires Shape() && k < NUMBERS && |baseline| == NUMBERS
    {
      Number(k) == baseline[k] + F.Sum(Effects(player, conditions, k)) + diff
    }

    /** Each number is its baseline plus the sum over the active conditions, and keys are unique. */
    ghost predicate Valid()
      reads this, conditions
    {
      && Shape() && |baseline| == NUMBERS && Distinct(conditions)
      && (forall i, j :: 0 <= i < j < |conditions| ==> conditions[i].key != conditions[j].key)
      && (forall k :: 0 <= k < NUMBERS ==> Balanced(k, 0))
    }

    /** The numbers changed by `sign` times the effect of `c`, to which nothing happened. */
    twostate predicate Booked(c: Condition, sign: int)
      requires old(Shape()) && Shape() && c.Valid()
      reads this, conditions, c
    {
      forall k :: 0 <= k < NUMBERS ==> Number(k) == old(Number(k)) + sign * c.Effect(player, k)
    }

    /** Adds or subtracts what a condition stands for. */
    method Book(c: Condition, sign: int)
      requires Shape() && c.Valid()
      modifies this`varSpeed, this`varSkills, this`varSpecialSkills, this`varStats
      ensures Shape() && Booked(c, sign)
      ensures sign == 1 ==> AddedTo(c)
    {
      if c.kind == Speed {
        varSpeed := varSpeed + sign * c.speedDelta;
      } else if c.kind == Attributes && player {
        varSkills := Added(varSkills, c.skills, sign);
        varSpecialSkills := Added(varSpecialSkills, c.specialSkills, sign);
        varStats := Added(varStats, c.stats, sign);
      }
    }

    /** Works out a speed from its formula, or attributes from their percentages. */
    method Resolve(c: Condition, ctx: Context)
      requires c.Valid() && |ctx.baseSkills| == SKILLS && |ctx.baseStats| == STATS
      modifies c`speedDelta, c`skills, c`stats
      ensures c.Valid() && WorkedOut(c.Values(), old(c.Values()), c.kind, player, ctx)
    {
      if c.kind == Speed {
        if c.speedDelta == 0 {
          c.speedDelta := ctx.rolled;
        }
      } else if c.kind == Attributes && player {
        c.skills := FromPercent(c.skills, c.skillsPercent, ctx.baseSkills, {});
        c.stats := FromPercent(c.stats, c.statsPercent, ctx.baseStats, {STAT_SOULPOINTS});
      }
    }

    /** `startCondition` */
    method Start(c: Condition, ctx: Context)
      requires Shape() && c.Valid() && |ctx.baseSkills| == SKILLS && |ctx.baseStats| == STATS && c !in conditions
      modifies this`varSpeed, this`varSkills, this`varSpecialSkills, this`varStats, c
      ensures Shape() && c.Valid() && Booked(c, 1) && WorkedOut(c.Values(), old(c.Values()), c.kind, player, ctx)
      ensures Begun(c, ctx.now) && AddedTo(c)
    {
      if c.ticks > 0 {
        c.endTime := c.ticks + ctx.now;
      }
      Resolve(c, ctx);
      Book(c, 1);
    }

    /** The condition has the time and the terms of `add`. */
    ghost predicate TookOver(c: Condition, add: Condition, ctx: Context)
      reads this, c, add
    {
      && c.ticks == add.ticks && c.endTime == add.ticks + ctx.now
      && (c.kind == Speed ==> c.speedDelta == if add.speedDelta == 0 then ctx.rolled else add.speedDelta)
      && (c.kind == Attributes ==> WorkedOut(c.Values(), add.Values().(speedDelta := c.speedDelta), Attributes, player, ctx))
    }

    /** `ConditionSpeed::addCondition` */
    method MergeSpeed(prev: Condition, add: Condition, ctx: Context)
      requires Shape() && prev.Valid() && prev.kind == add.kind == Speed && prev != add
      requires |ctx.baseSkills| == SKILLS && |ctx.baseStats| == STATS
      modifies this`varSpeed, prev
      ensures prev.Valid() && varSpeed == old(varSpeed) - old(prev.speedDelta) + prev.speedDelta
      ensures if old(prev.Yields(add, ctx.now)) then
          prev.ticks == add.ticks && prev.endTime == add.ticks + ctx.now
          && prev.speedDelta == (if add.speedDelta == 0 then ctx.rolled else add.speedDelta)
        else unchanged(prev)
    {
      if prev.ticks == -1 && add.ticks > 0 { return; }
      prev.ticks, prev.endTime := add.ticks, add.ticks + ctx.now;
      var oldSpeedDelta := prev.speedDelta;
      prev.speedDelta := add.speedDelta;
      Resolve(prev, ctx);
      var newSpeedChange := prev.speedDelta - oldSpeedDelta;
      if newSpeedChange != 0 {
        varSpeed := varSpeed + newSpeedChange;
      }
    }

    /** `ConditionAttributes::addCondition` once the new condition is known to prevail: the old values are taken
      back before the new ones are worked out and added. */
    method MergeAttributes(prev: Condition, add: Condition, ctx: Context)
      requires Shape() && prev.Valid() && add.Valid() && prev.kind == add.kind == Attributes && prev != add
      requires |ctx.baseSkills| == SKILLS && |ctx.baseStats| == STATS
      modifies this`varSpeed, this`varSkills, this`varSpecialSkills, this`varStats, prev
      ensures Shape() && prev.Valid() && prev.ticks == add.ticks && prev.endTime == add.ticks + ctx.now
      ensures WorkedOut(prev.Values(), add.Values().(speedDelta := old(prev.speedDelta)), Attributes, player, ctx)
      ensures forall k :: 0 <= k < NUMBERS ==>
        Number(k) == old(Number(k)) - old(prev.Effect(player, k)) + prev.Effect(player, k)
    {
      prev.ticks, prev.endTime := add.ticks, add.ticks + ctx.now;
      Book(prev, -1);
      prev.skills, prev.skillsPercent := add.skills, add.skillsPercent;
      prev.specialSkills, prev.stats, prev.statsPercent := add.specialSkills, add.stats, add.statsPercent;
      Resolve(prev, ctx);
      label Resolved:
      Book(prev, 1);
    }

    /** `addCondition` of a condition that is active already: it takes over the values of the new one. */
    method Merge(prev: Condition, add: Condition, ctx: Context)
      requires Shape() && prev in conditions && add !in conditions && prev.Valid() && add.Valid()
      requires prev.kind == add.kind
      requires |ctx.baseSkills| == SKILLS && |ctx.baseStats| == STATS
      modifies this`varSpeed, this`varSkills, this`varSpecialSkills, this`varStats, prev
      ensures Shape()
      ensures forall k :: 0 <= k < NUMBERS ==>
        Number(k) == old(Number(k)) - old(prev.Effect(player, k)) + prev.Effect(player, k)
      ensures if old(prev.Yields(add, ctx.now)) then TookOver(prev, add, ctx) else unchanged(prev)
    {
      if prev.kind == Speed {
        MergeSpeed(prev, add, ctx);
      } else if prev.Updates(add, ctx.now) {
        if prev.kind == Attributes {
          MergeAttributes(prev, add, ctx);
        } else {
          prev.ticks, prev.endTime := add.ticks, add.ticks + ctx.now;
        }
      }
    }

    /** After the effects of the condition at `p` changed and were booked, the ledger balances again. */
    twostate lemma {:induction false} BalancedAfterMerge(new p: nat)
      requires old(allocated(this)) && old(Valid()) && Shape() && p < |conditions|
      requires conditions == old(conditions) && baseline == old(baseline)
      requires forall i :: 0 <= i < |conditions| && i != p ==> unchanged(conditions[i])
      requires forall k :: 0 <= k < NUMBERS ==>
        Number(k) == old(Number(k)) - old(conditions[p].Effect(player, k)) + conditions[p].Effect(player, k)
      ensures Valid()
    {
      forall k | 0 <= k < NUMBERS
        ensures Balanced(k, 0)
      {
        assert old(Balanced(k, 0));
        var before := old(Effects(player, conditions, k));
        assert Effects(player, conditions, k) == before[p := conditions[p].Effect(player, k)];
        F.SumUpdate(before, p, conditions[p].Effect(player, k));
      }
    }

    /** `getCondition` by key: its place in the list, or the length. */
    method Find(key: Key) returns (p: nat)
      ensures p <= |conditions| && (p < |conditions| ==> conditions[p].key == key)
      ensures p == |conditions| ==> forall c :: c in conditions ==> c.key != key
    {
      for i := 0 to |conditions|
        invariant forall k :: 0 <= k < i ==> conditions[k].key != key
      {
        if conditions[i].key == key { return i; }
      }
      p := |conditions|;
    }

    /** `hasCondition`; `suppressions` are the types that the creature is immune to. */
    method HasCondition(conditionType: nat, subId: nat, now: int, suppressions: set<nat>) returns (has: bool)
      ensures has <==> conditionType !in suppressions && exists c :: c in conditions && c.InForce(conditionType, subId, now)
      ensures has <==> conditionType !in suppressions
                       && exists c :: c in conditions && c.key.conditionType == conditionType && c.key.subId == subId
                                      && (c.endTime >= now || c.ticks == -1)
    {
      if conditionType in suppressions { return false; }
      for i := 0 to |conditions|
        invariant forall k :: 0 <= k < i ==> !conditions[k].InForce(conditionType, subId, now)
      {
        if conditions[i].InForce(conditionType, subId, now) { return true; }
      }
      has := false;
    }

    /** How long an active condition lasts once another of its key was added: one without end stays so, one that is given
      no end has none, and otherwise the later end counts, but for speed, where it is always the new one. */
    twostate predicate Lasts(c: Condition, add: Condition, now: int)
      reads c, add
    {
      && (old(c.ticks) == -1 && add.ticks > 0 ==> unchanged(c))
      && (add.ticks == -1 ==> c.ticks == -1)
      && (old(c.ticks) != -1 && 0 <= add.ticks ==>
            var longer := c.kind == Speed || old(c.endTime) <= now + add.ticks;
            c.endTime == if longer then now + add.ticks else old(c.endTime))
    }

    /** `addCondition`: a condition with a new key starts and joins the list; otherwise the active one with that
      key is updated.  Haste on a paralysed creature waits until it may walk. */
    method AddCondition(condition: Condition, force: bool, ctx: Context) returns (ok: bool)
      requires Valid() && condition.Valid() && condition !in conditions
      requires |ctx.baseSkills| == SKILLS && |ctx.baseStats| == STATS
      requires forall c :: c in conditions && c.key == condition.key ==> c.kind == condition.kind
      modifies this`conditions, this`varSpeed, this`varSkills, this`varSpecialSkills, this`varStats, conditions,
               condition
      ensures Valid()
      ensures conditions ==
        if ok && forall c :: c in old(conditions) ==> c.key != condition.key then old(conditions) + [condition]
        else old(conditions)
      ensures ok && condition in conditions ==>
        WorkedOut(condition.Values(), old(condition.Values()), condition.kind, player, ctx)
        && Begun(condition, ctx.now) && AddedTo(condition)
      ensures forall c :: c in old(conditions) && (!ok || c.key != condition.key) ==> unchanged(c)
      ensures ok ==> forall c :: c in old(conditions) && c.key == condition.key ==>
        if old(c.Yields(condition, ctx.now)) then TookOver(c, condition, ctx) else unchanged(c)
      ensures ok ==> forall c :: c in old(conditions) && c.key == condition.key ==> Lasts(c, condition, ctx.now)
      ensures !ok <==> (!force && condition.key.conditionType == CONDITION_HASTE && ctx.walkDelay > 0
        && CONDITION_PARALYZE !in ctx.suppressions
          && (exists c :: c in old(conditions) && old(c.InForce(CONDITION_PARALYZE, 0, ctx.now))))
    {
      hide Valid, WorkedOut, TookOver, Condition.Valid, SumsOf, Balanced, Shape;
      NewKey(condition);
      if !force && condition.key.conditionType == CONDITION_HASTE {
        var paralysed := HasCondition(CONDITION_PARALYZE, 0, ctx.now, ctx.suppressions);
        if paralysed && ctx.walkDelay > 0 { return false; }
      }
      ok := true;
      var p := Find(condition.key);
      if p < |conditions| {
        Update(p, condition, ctx);
        return;
      }
      Join(condition, ctx);
    }

    /** The time of a condition that has started. */
    twostate predicate Begun(c: Condition, now: int)
      reads c
    {
      c.ticks == old(c.ticks) && c.endTime == if c.ticks > 0 then now + c.ticks else old(c.endTime)
    }

    /** What a condition has added: its speed to any creature, and its attributes to a player. */
    twostate predicate AddedTo(c: Condition)
      reads this, c
    {
      && varSpeed == old(varSpeed) + (if c.kind == Speed then c.speedDelta else 0)
      && (if c.kind == Attributes && player
          then SumsOf(varSkills, old(varSkills), c.skills) && SumsOf(varStats, old(varStats), c.stats)
               && SumsOf(varSpecialSkills, old(varSpecialSkills), c.specialSkills)
          else varSkills == old(varSkills) && varSpecialSkills == old(varSpecialSkills) && varStats == old(varStats))
    }

    predicate SumsOf(r: seq<int>, a: seq<int>, b: seq<int>) {
      |r| == |a| == |b| && forall i :: 0 <= i < |r| ==> r[i] == a[i] + b[i]
    }

    lemma {:induction false} NewKey(condition: Condition)
      requires Valid() && condition !in conditions
      ensures forall i, j :: 0 <= i < j < |conditions| ==> conditions[i].key != conditions[j].key
    {
    }

    /** A condition with a new key starts and joins the list. */
    method Join(condition: Condition, ctx: Context)
      requires Valid() && condition.Valid() && condition !in conditions && |ctx.baseSkills| == SKILLS
      requires |ctx.baseStats| == STATS
      requires forall c :: c in conditions ==> c.key != condition.key
      modifies this`conditions, this`varSpeed, this`varSkills, this`varSpecialSkills, this`varStats, condition
      ensures Valid() && conditions == old(conditions) + [condition]
      ensures WorkedOut(condition.Values(), old(condition.Values()), condition.kind, player, ctx)
      ensures Begun(condition, ctx.now) && AddedTo(condition)
    {
      Start(condition, ctx);
      conditions := conditions + [condition];
      BalancedAfterStart(condition);
    }

    /** The condition at `p` is active already. */
    method Update(p: nat, condition: Condition, ctx: Context)
      requires Valid() && condition.Valid() && condition !in conditions && p < |conditions|
      requires conditions[p].kind == condition.kind && conditions[p].key == condition.key
      requires |ctx.baseSkills| == SKILLS && |ctx.baseStats| == STATS
      modifies this`varSpeed, this`varSkills, this`varSpecialSkills, this`varStats, conditions[p]
      ensures Valid() && forall i :: 0 <= i < |conditions| && i != p ==> unchanged(conditions[i])
      ensures if old(conditions[p].Yields(condition, ctx.now)) then TookOver(conditions[p], condition, ctx)
        else unchanged(conditions[p])
      ensures Lasts(conditions[p], condition, ctx.now)
    {
      Merge(conditions[p], condition, ctx);
      assert forall i :: 0 <= i < |conditions| && i != p ==> conditions[i] != conditions[p];
      BalancedAfterMerge(p);
    }

    twostate lemma {:induction false} BalancedAfterStart(new c: Condition)
      requires old(allocated(this)) && old(allocated(c)) && old(Valid()) && Shape() && c !in old(conditions)
      requires c.Valid()
      requires conditions == old(conditions) + [c] && baseline == old(baseline)
      requires forall i :: 0 <= i < |old(conditions)| ==> old(conditions)[i].key != c.key && unchanged(old(conditions)[i])
      requires forall k :: 0 <= k < NUMBERS ==> Number(k) == old(Number(k)) + c.Effect(player, k)
      ensures Valid()
    {
      forall k | 0 <= k < NUMBERS
        ensures Balanced(k, 0)
      {
        assert old(Balanced(k, 0));
        var before := old(Effects(player, conditions, k));
        var e := c.Effect(player, k);
        assert before[..|before|] + [e] + before[|before|..] == before + [e];
        assert Effects(player, conditions, k) == before + [e];
        F.SumInsert(before, |before|, e);
      }
    }

    /** Erases the condition at `p` and ends it. */
    method RemoveAt(p: nat)
      requires Valid() && p < |conditions|
      modifies this`conditions, this`varSpeed, this`varSkills, this`varSpecialSkills, this`varStats
      ensures Valid() && conditions == old(conditions)[..p] + old(conditions)[p + 1..]
    {
      var c := conditions[p];
      conditions := conditions[..p] + conditions[p + 1..];
      Book(c, -1);
      BalancedAfterEnd(p);
    }

    twostate lemma {:induction false} BalancedAfterEnd(new p: nat)
      requires old(allocated(this)) && old(Valid()) && Shape() && p < |old(conditions)|
      requires conditions == old(conditions)[..p] + old(conditions)[p + 1..] && baseline == old(baseline)
      requires forall i :: 0 <= i < |old(conditions)| ==> unchanged(old(conditions)[i])
      requires forall k :: 0 <= k < NUMBERS ==> Number(k) == old(Number(k)) - old(conditions)[p].Effect(player, k)
      ensures Valid()
    {
      forall k | 0 <= k < NUMBERS
        ensures Balanced(k, 0)
      {
        assert old(Balanced(k, 0));
        var before := old(Effects(player, conditions, k));
        var after := Effects(player, conditions, k);
        assert after == before[..p] + before[p + 1..] && before[p] == old(conditions)[p].Effect(player, k);
        F.SumWithout(before, p);
      }
    }

    /** `removeCondition` by type, or by type and id: all that match are erased and ended, unless a paralysis has
      to wait until the creature may walk. */
    method RemoveCondition(conditionType: nat, conditionId: Option<int>, force: bool, walkDelay: int)
      requires Valid()
      modifies this`conditions, this`varSpeed, this`varSkills, this`varSpecialSkills, this`varStats
      ensures Valid()
      ensures conditions == if !force && conditionType == CONDITION_PARALYZE && walkDelay > 0 then old(conditions)
        else Unmatched(old(conditions), conditionType, conditionId)
      ensures forall c :: c in old(conditions) ==>
        var waits := !force && conditionType == CONDITION_PARALYZE && walkDelay > 0;
        var meant := c.key.conditionType == conditionType && (conditionId == None || conditionId == Some(c.key.id));
        (c in conditions <==> waits || !meant)
    {
      var i := 0;
      UnmatchedAre(conditions, conditionType, conditionId);
      ghost var all := conditions;
      ghost var waits := !force && conditionType == CONDITION_PARALYZE && walkDelay > 0;
      hide Valid, Matches;
      while i < |conditions|
        invariant i <= |conditions| && Valid() && (waits ==> conditions == all)
        invariant Unmatched(all, conditionType, conditionId) ==
          conditions[..i] + Unmatched(conditions[i..], conditionType, conditionId)
        decreases |conditions| - i
      {
        var condition := conditions[i];
        UnmatchedStep(conditions, i, conditionType, conditionId);
        if !Matches(condition, conditionType, conditionId) {
          i := i + 1;
          continue;
        }
        if !force && conditionType == CONDITION_PARALYZE {
          if walkDelay > 0 { return; }
        }
        RemoveAt(i);
      }
      assert conditions[..i] + [] == conditions;
    }

    lemma {:induction false} UnmatchedAre(s: seq<Condition>, conditionType: nat, conditionId: Option<int>)
      ensures forall c :: c in Unmatched(s, conditionType, conditionId) <==>
        c in s && !(c.key.conditionType == conditionType && (conditionId == None || conditionId == Some(c.key.id)))
    {
      if s != [] { UnmatchedAre(s[1..], conditionType, conditionId); }
    }

    lemma {:induction false} UnmatchedStep(s: seq<Condition>, i: nat, conditionType: nat, conditionId: Option<int>)
      requires i < |s|
      ensures Matches(s[i], conditionType, conditionId) ==> var t := s[..i] + s[i + 1..];
        t[..i] + Unmatched(t[i..], conditionType, conditionId) == s[..i] + Unmatched(s[i..], conditionType, conditionId)
      ensures !Matches(s[i], conditionType, conditionId) ==>
        s[..i + 1] + Unmatched(s[i + 1..], conditionType, conditionId) ==
          s[..i] + Unmatched(s[i..], conditionType, conditionId)
    {
      hide Matches;
      var t := s[..i] + s[i + 1..];
      assert t[..i] == s[..i] && t[i..] == s[i + 1..] && s[i..][1..] == s[i + 1..];
      assert s[..i + 1] == s[..i] + [s[i]];
    }

    /** `executeCondition`: of a speed or attribute condition it only counts down; whether another condition goes
      on is up to its class. */
    method Execute(c: Condition, interval: int, now: int, ends: set<Condition>) returns (alive: bool)
      requires Shape() && c.Valid()
      modifies c`ticks
      ensures Shape() && c.Valid() && alive == !old(Expires(c, now, ends))
      ensures c.ticks == Counted(c, old(c.ticks), interval)
    {
      if c.kind == Other { return c !in ends; }
      if c.ticks == -1 { return true; }
      c.ticks := if c.ticks - interval > 0 then c.ticks - interval else 0;
      alive := c.endTime >= now;
    }

    /** What `interval` leaves of the ticks of a condition; -1 stands for no end. */
    function Counted(c: Condition, ticks: int, interval: int): int {
      if c.kind == Other || ticks == -1 then ticks else if ticks > interval then ticks - interval else 0
    }

    /** The active conditions that end in this round. */
    ghost function Expired(now: int, ends: set<Condition>): set<Condition>
      reads this, conditions
    {
      set c | c in conditions && Expires(c, now, ends)
    }

    predicate Expires(c: Condition, now: int, ends: set<Condition>)
      reads c
    {
      if c.kind == Other then c in ends else c.ticks != -1 && c.endTime < now
    }

    lemma {:induction false} ExpiredAre(now: int, ends: set<Condition>)
      ensures forall c :: c in conditions ==>
        (c in Expired(now, ends) <==> if c.kind == Other then c in ends else c.ticks != -1 && c.endTime < now)
    {
    }

    lemma {:induction false} KeptAre(s: seq<Condition>, gone: set<Condition>)
      ensures forall c :: c in Kept(s, gone) <==> c in s && c !in gone
    {
      if s != [] { KeptAre(s[1..], gone); }
    }

    /** `executeConditions`: goes through a copy of the list; what expires is erased and ended. */
    method ExecuteConditions(interval: int, now: int, ends: set<Condition>)
      requires Valid()
      modifies this`conditions, this`varSpeed, this`varSkills, this`varSpecialSkills, this`varStats, conditions`ticks
      ensures Valid() && conditions == Kept(old(conditions), old(Expired(now, ends)))
      ensures forall c :: c in old(conditions) ==> c.ticks == Counted(c, old(c.ticks), interval)
      ensures forall c :: c in old(conditions) && c.kind != Other && old(c.ticks) != -1 ==>
        c.ticks == if old(c.ticks) > interval then old(c.ticks) - interval else 0
      ensures forall c :: c in old(conditions) ==>
        (c in conditions <==> if c.kind == Other then c !in ends else old(c.ticks) == -1 || c.endTime >= now)
    {
      KeptAre(conditions, Expired(now, ends));
      ExpiredAre(now, ends);
      var tempConditions := conditions;
      ghost var gone, was := Expired(now, ends), TicksOf(conditions);
      hide *;
      RoundBegins(interval, now, ends);
      ExecuteEach(interval, now, ends, tempConditions, gone, was);
      AllCounted(tempConditions, gone, was, interval, now, ends);
    }

    method ExecuteEach(interval: int, now: int, ends: set<Condition>, tempConditions: seq<Condition>,
                       ghost gone: set<Condition>, ghost was: seq<int>)
      requires Valid() && conditions == tempConditions && Round(tempConditions, 0, gone, was, interval, now, ends)
      modifies this`conditions, this`varSpeed, this`varSkills, this`varSpecialSkills, this`varStats, conditions`ticks
      ensures Valid() && conditions == Kept(tempConditions, gone)
      ensures Round(tempConditions, |tempConditions|, gone, was, interval, now, ends)
    {
      NoneSeen(tempConditions, gone);
      hide *;
      for i := 0 to |tempConditions|
        invariant Valid() && conditions == Kept(tempConditions[..i], gone) + tempConditions[i..]
        invariant Round(tempConditions, i, gone, was, interval, now, ends)
      {
        ExecuteOne(tempConditions[i], interval, now, ends, tempConditions, i, gone, was);
      }
      NoneLeft(tempConditions, gone);
    }

    ghost function TicksOf(s: seq<Condition>): seq<int>
      reads s
    {
      seq(|s|, i requires 0 <= i < |s| reads s => s[i].ticks)
    }

    /** The conditions from `i` on are still to be executed, those before were; `was` are their ticks before. */
    ghost predicate Round(all: seq<Condition>, i: nat, gone: set<Condition>, was: seq<int>, interval: int, now: int,
                          ends: set<Condition>)
      reads all
    {
      && Distinct(all) && |was| == |all| && i <= |all|
      && (forall k :: 0 <= k < i ==> all[k].ticks == Counted(all[k], was[k], interval))
      && (forall k :: i <= k < |all| ==> all[k].ticks == was[k] && (all[k] in gone <==> Expires(all[k], now, ends)))
    }

    /** One turn of the loop of `executeConditions`. */
    method ExecuteOne(condition: Condition, interval: int, now: int, ends: set<Condition>,
                      ghost all: seq<Condition>, ghost i: nat, ghost gone: set<Condition>, ghost was: seq<int>)
      requires Valid() && i < |all| && condition == all[i] && conditions == Kept(all[..i], gone) + all[i..]
      requires Round(all, i, gone, was, interval, now, ends)
      modifies this`conditions, this`varSpeed, this`varSkills, this`varSpecialSkills, this`varStats, condition`ticks
      ensures Valid() && conditions == Kept(all[..i + 1], gone) + all[i + 1..]
      ensures Round(all, i + 1, gone, was, interval, now, ends)
    {
      OneMoreKept(all, i, gone);
      var p := Index(condition);
      SamePlace(p, |Kept(all[..i], gone)|);
      RoundAt(all, i, gone, was, interval, now, ends);
      hide Valid, Kept, Counted, Round;
      if p < |conditions| {
        var alive := Tick(condition, interval, now, ends);
        if !alive {
          RemoveAt(p);
        }
      }
      RoundStep(all, i, gone, was, interval, now, ends);
    }

    lemma {:induction false} RoundAt(all: seq<Condition>, i: nat, gone: set<Condition>, was: seq<int>, interval: int,
                                     now: int, ends: set<Condition>)
      requires Round(all, i, gone, was, interval, now, ends) && i < |all|
      ensures all[i] in gone <==> Expires(all[i], now, ends)
    {
    }

    twostate lemma {:induction false} RoundStep(new all: seq<Condition>, new i: nat, new gone: set<Condition>,
                                                new was: seq<int>,
                                                new interval: int, new now: int, new ends: set<Condition>)
      requires old(allocated(all)) && old(allocated(gone)) && old(allocated(was)) && old(allocated(ends))
      requires i < |all| && old(Round(all, i, gone, was, interval, now, ends))
      requires all[i].ticks == Counted(all[i], old(all[i].ticks), interval)
      requires forall c :: c in all && c != all[i] ==> unchanged(c)
      ensures Round(all, i + 1, gone, was, interval, now, ends)
    {
      forall k | 0 <= k < i
        ensures all[k].ticks == Counted(all[k], was[k], interval)
      {
        assert all[i] != all[k] && all[k] in all && unchanged(all[k]);
      }
      forall k | i < k < |all|
        ensures all[k].ticks == was[k] && (all[k] in gone <==> Expires(all[k], now, ends))
      {
        assert all[i] != all[k] && all[k] in all && unchanged(all[k]);
        assert old(Expires(all[k], now, ends)) == Expires(all[k], now, ends);
      }
    }

    lemma {:induction false} RoundBegins(interval: int, now: int, ends: set<Condition>)
      requires Valid()
      ensures Round(conditions, 0, Expired(now, ends), TicksOf(conditions), interval, now, ends)
    {
    }

    twostate lemma {:induction false} AllCounted(new all: seq<Condition>, new gone: set<Condition>, new was: seq<int>,
                                                 new interval: int, new now: int, new ends: set<Condition>)
      requires old(allocated(all)) && was == old(TicksOf(all)) && Round(all, |all|, gone, was, interval, now, ends)
      ensures forall c :: c in all ==> c.ticks == Counted(c, old(c.ticks), interval)
      ensures forall c :: c in all && c.kind != Other && old(c.ticks) != -1 ==>
        c.ticks == if old(c.ticks) > interval then old(c.ticks) - interval else 0
    {
    }

    lemma {:induction false} SamePlace(p: nat, q: nat)
      requires Valid() && q < |conditions| && (p < |conditions| ==> conditions[p] == conditions[q])
      requires p >= |conditions| ==> conditions[q] !in conditions
      ensures p == q
    {
    }

    lemma {:induction false} NoneSeen(all: seq<Condition>, gone: set<Condition>)
      ensures Kept(all[..0], gone) + all[0..] == all
    {
    }

    lemma {:induction false} NoneLeft(all: seq<Condition>, gone: set<Condition>)
      ensures Kept(all[..|all|], gone) + all[|all|..] == Kept(all, gone)
    {
      assert all[..|all|] == all;
    }

    /** The place of a condition in the list, or the length. */
    method Index(condition: Condition) returns (p: nat)
      ensures p <= |conditions| && (p < |conditions| ==> conditions[p] == condition)
      ensures p == |conditions| ==> condition !in conditions
    {
      for i := 0 to |conditions|
        invariant forall k :: 0 <= k < i ==> conditions[k] != condition
      {
        if conditions[i] == condition { return i; }
      }
      p := |conditions|;
    }

    method Tick(c: Condition, interval: int, now: int, ends: set<Condition>) returns (alive: bool)
      requires Valid() && c in conditions
      modifies c`ticks
      ensures Valid() && alive == !old(Expires(c, now, ends)) && c.ticks == Counted(c, old(c.ticks), interval)
    {
      alive := Execute(c, interval, now, ends);
      forall k | 0 <= k < NUMBERS
        ensures Balanced(k, 0)
      {
        assert old(Balanced(k, 0));
        assert Effects(player, conditions, k) == old(Effects(player, conditions, k));
      }
    }

    /** Whatever came and went: once no condition is left, every number is back at its baseline. */
    lemma {:induction false} BackToBaseline(k: nat)
      requires Valid() && conditions == [] && k < NUMBERS
      ensures Number(k) == baseline[k]
    {
      assert Balanced(k, 0);
    }
  }
}
