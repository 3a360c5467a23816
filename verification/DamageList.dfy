/** The rounds of a damage condition (src/condition.cpp `generateDamageList`).

  The damage goes down level by level from a start value to one, and on each level as many rounds are
  dealt as bring the sum closest to its share of the amount.  Divisions are exact here. */
module DamageList {
  import opened Wrappers
  import PropStreams

  function AbsReal(v: real): real {
    if v < 0.0 then -v else v
  }

  /** Whether one more round of `i` brings `sum` closer to `med`, as the relative errors have it; both are
    infinite, and hence not smaller, when `med` is zero. */
  predicate Closer(sum: nat, i: nat, med: nat) {
    med != 0 && AbsReal(1.0 - (sum + i) as real / med as real) < AbsReal(1.0 - sum as real / med as real)
  }

  /** The comparison of relative errors is one of integers. */
  lemma {:induction false} CloserIff(sum: nat, i: nat, med: nat)
    requires i > 0
    ensures Closer(sum, i, med) <==> 2 * sum + i < 2 * med
  {
    if med != 0 {
      var m, s, d := med as real, sum as real, i as real;
      assert (sum + i) as real == s + d;
      ErrorOf(s, m);
      ErrorOf(s + d, m);
      ScaledLess(AbsReal(m - (s + d)), AbsReal(m - s), m);
    }
  }

  lemma {:induction false} ErrorOf(v: real, m: real)
    requires m > 0.0
    ensures AbsReal(1.0 - v / m) == AbsReal(m - v) / m
  {
    var q := v / m;
    assert q * m == v;
    assert (1.0 - q) * m == m - q * m;
    Quotient(1.0 - q, m, m - v);
    Quotient(-(1.0 - q), m, -(m - v));
  }

  lemma {:induction false} Quotient(a: real, m: real, b: real)
    requires m > 0.0 && a * m == b
    ensures b / m == a && (b >= 0.0 <==> a >= 0.0)
  {
    if a >= 0.0 {
      assert a * m >= 0.0;
    } else {
      assert -a * m > 0.0;
    }
  }

  lemma {:induction false} ScaledLess(a: real, b: real, m: real)
    requires m > 0.0
    ensures a / m < b / m <==> a < b
  {
  }

  function Sum(s: seq<nat>): nat {
    if s == [] then 0 else Sum(s[..|s| - 1]) + s[|s| - 1]
  }

  lemma {:induction false} SumMore(s: seq<nat>, v: nat)
    ensures Sum(s + [v]) == Sum(s) + v
  {
    assert (s + [v])[..|s|] == s;
  }

  /** start + (start - 1) + ... + low */
  function Triangle(start: nat, low: nat): nat
    decreases start - low
  {
    if low > start then 0 else low + Triangle(start, low + 1)
  }

  lemma {:induction false} TriangleIsSquare(start: nat, low: nat)
    requires 1 <= low <= start + 1
    ensures 2 * Triangle(start, low) == start * (start + 1) - low * (low - 1)
    decreases start - low
  {
    if low <= start {
      TriangleIsSquare(start, low + 1);
      assert (low + 1) * low == low * (low - 1) + 2 * low;
    }
  }

  ghost predicate NonIncreasing(s: seq<nat>) {
    forall i, j :: 0 <= i < j < |s| ==> s[i] >= s[j]
  }

  /** One level: at least one round of `i`, and more as long as they bring the sum closer to `med`. */
  method DamageLevel(list0: seq<nat>, sum0: nat, i: nat, med: nat) returns (list: seq<nat>, sum: nat)
    requires i > 0 && sum0 == Sum(list0)
    ensures sum == Sum(list) && |list| > |list0| && list[..|list0|] == list0
    ensures forall k :: |list0| <= k < |list| ==> list[k] == i
    ensures 2 * sum + i >= 2 * med && sum >= sum0 + i
    ensures sum == sum0 + i || 2 * sum < 2 * med + i
    ensures i == 1 ==> sum == if sum0 < med then med else sum0 + 1
  {
    SumMore(list0, i);
    list, sum := list0 + [i], sum0 + i;
    CloserIff(sum, i, med);
    while Closer(sum, i, med)
      invariant sum == Sum(list) && sum >= sum0 + i && |list| > |list0| && list[..|list0|] == list0
      invariant forall k :: |list0| <= k < |list| ==> list[k] == i
      invariant sum == sum0 + i || 2 * sum < 2 * med + i
      invariant Closer(sum, i, med) <==> 2 * sum + i < 2 * med
      invariant i == 1 ==> sum <= (if sum0 < med then med else sum0 + 1)
      decreases 2 * med - sum
    {
      SumMore(list, i);
      list, sum := list + [i], sum + i;
      CloserIff(sum, i, med);
    }
  }

  /** The sum of the rounds of at least `low`. */
  function SumAbove(s: seq<nat>, low: nat): nat {
    if s == [] then 0 else SumAbove(s[..|s| - 1], low) + if s[|s| - 1] >= low then s[|s| - 1] else 0
  }

  /** The rounds down to level `i` come as close to their share of the amount as one round more or less can tell, but for
    the one round that every level has. */
  predicate LevelOk(list: seq<nat>, amount: nat, start: nat, i: nat)
    requires 1 <= i <= start
  {
    var sum, above, med := SumAbove(list, i), SumAbove(list, i + 1), ((start + 1 - i) * amount) / start;
    above + i <= sum && 2 * med <= 2 * sum + i && (sum == above + i || 2 * sum < 2 * med + i)
  }

  lemma {:induction false} AllAbove(s: seq<nat>, low: nat)
    requires forall k :: 0 <= k < |s| ==> s[k] >= low
    ensures SumAbove(s, low) == Sum(s)
  {
    if s != [] {
      AllAbove(s[..|s| - 1], low);
    }
  }

  lemma {:induction false} NoneAbove(s: seq<nat>, n: nat, low: nat)
    requires n <= |s| && forall k :: n <= k < |s| ==> s[k] < low
    ensures SumAbove(s, low) == SumAbove(s[..n], low)
    decreases |s|
  {
    if n < |s| {
      NoneAbove(s[..|s| - 1], n, low);
      assert s[..|s| - 1][..n] == s[..n];
    } else {
      assert s[..n] == s;
    }
  }

  /** A new level leaves the levels above as they were. */
  lemma {:induction false} LevelsKept(list0: seq<nat>, list: seq<nat>, amount: nat, start: nat, i: nat, med: nat)
    requires 1 <= i <= start && (forall v :: v in list0 ==> v > i) && |list0| <= |list| && list[..|list0|] == list0
    requires forall k :: |list0| <= k < |list| ==> list[k] == i
    requires forall j :: i < j <= start ==> LevelOk(list0, amount, start, j)
    requires med == ((start + 1 - i) * amount) / start && Sum(list0) + i <= Sum(list)
    requires 2 * med <= 2 * Sum(list) + i && (Sum(list) == Sum(list0) + i || 2 * Sum(list) < 2 * med + i)
    ensures forall j :: i <= j <= start ==> LevelOk(list, amount, start, j)
  {
    forall k | 0 <= k < |list|
      ensures list[k] >= i && (k < |list0| ==> list[k] == list0[k] > i)
    {
      if k < |list0| { assert list0[k] in list0; }
    }
    AllAbove(list, i);
    AllAbove(list0, i + 1);
    forall j | i < j <= start + 1
      ensures SumAbove(list, j) == SumAbove(list0, j)
    {
      assert forall k :: |list0| <= k < |list| ==> list[k] < j;
      NoneAbove(list, |list0|, j);
    }
    hide SumAbove, Sum;
    forall j | i <= j <= start
      ensures LevelOk(list, amount, start, j)
    {
      if j > i { assert LevelOk(list0, amount, start, j); }
    }
  }

  /** `ConditionDamage::generateDamageList`: the list never rises and contains every value from the start down
    to one; its total is at least the amount and at least what one round per level gives, and exceeds the
    amount by no more than that. */
  method GenerateDamageList(amount0: int, start: nat) returns (list: seq<nat>, ghost beforeLast: nat)
    ensures NonIncreasing(list)
    ensures forall v :: v in list <==> 1 <= v <= start
    ensures forall i :: 1 <= i <= start ==> LevelOk(list, Abs(amount0), start, i)
    ensures start >= 1 ==>
      var amount, least := Abs(amount0), start * (start + 1) / 2;
      && Sum(list) == (if beforeLast < amount then amount else beforeLast + 1)
      && amount <= Sum(list) && least <= Sum(list) <= amount + least
  {
    var amount := Abs(amount0);
    var sum: nat := 0;
    list, beforeLast := [], 0;
    if start >= 1 { TriangleIsSquare(start, 1); }
    for i := start + 1 downto 1
      invariant sum == Sum(list) && NonIncreasing(list)
      invariant forall v :: v in list <==> i <= v <= start
      invariant forall j :: i <= j <= start ==> LevelOk(list, amount, start, j)
      invariant Triangle(start, i) <= sum <= amount + Triangle(start, i)
      invariant i == 1 && start >= 1 ==> amount <= sum == if beforeLast < amount then amount else beforeLast + 1
    {
      var n := start + 1 - i;
      var med := (n * amount) / start;
      Share(n, amount, start);
      ghost var list0 := list;
      beforeLast := sum;
      list, sum := DamageLevel(list, sum, i, med);
      NextLevel(list0, list, i, start);
      LevelsKept(list0, list, amount, start, i, med);
    }
  }

  lemma {:induction false} Share(n: nat, amount: nat, start: nat)
    requires 1 <= n <= start
    ensures 0 <= (n * amount) / start <= amount && (n == start ==> (n * amount) / start == amount)
  {
    var q := (n * amount) / start;
    assert n * amount == start * q + (n * amount) % start;
    assert n * amount <= start * amount;
    assert start * (q - amount) == start * q - start * amount;
    PropStreams.MultipleIsFar(start, q - amount);
  }

  lemma {:induction false} NextLevel(list0: seq<nat>, list: seq<nat>, i: nat, start: nat)
    requires NonIncreasing(list0) && forall v :: v in list0 <==> i + 1 <= v <= start
    requires |list0| < |list| && list[..|list0|] == list0 && forall k :: |list0| <= k < |list| ==> list[k] == i
    requires i <= start
    ensures NonIncreasing(list) && forall v :: v in list <==> i <= v <= start
  {
    forall k | 0 <= k < |list|
      ensures i <= list[k] <= start && (k < |list0| ==> list[k] == list0[k] > i)
    {
      if k < |list0| { assert list0[k] in list0; }
    }
    forall v | i <= v <= start
      ensures v in list
    {
      if v == i {
        assert list[|list0|] == v;
      } else {
        assert v in list0;
      }
    }
  }
}
