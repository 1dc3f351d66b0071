// Algorithm selectors: cutoffs that separate the levels, under random choices. Level 1 has no cutoff.

module Selectors {
  const MAX_LEVELS := 13
  const DISABLED := 0x8000_0000

  function Min(a: int, b: int): (m: int)
    ensures m <= a && m <= b && (m == a || m == b)
  {
    if a < b then a else b
  }

  function Max(a: int, b: int): (m: int)
    ensures a <= m && b <= m && (m == a || m == b)
  {
    if a < b then b else a
  }

  /** What `rnd_loguniform` can return: a value between its bounds, in whichever order they come. */
  predicate InLogUniform(min: int, max: int, r: int) { Min(min, max) <= r <= Max(min, max) }

  method LogUniform(min: int, max: int) returns (r: int)
    ensures InLogUniform(min, max, r)
  {
    r :| Min(min, max) <= r <= Max(min, max);
  }

  /**
   * What `rnd_lognormal` can return: anything between its bounds. Bounds in the wrong order are close together for it, so
   * it draws from the interval between the upper bound plus one and the lower bound.
   */
  predicate InLogNormal(minv: int, maxv: int, r: int) {
    if minv <= maxv then minv <= r <= maxv else maxv + 1 <= r <= minv
  }

  method LogNormal(minv: int, maxv: int) returns (r: int)
    ensures InLogNormal(minv, maxv, r)
  {
    r := minv;
    if minv <= maxv { r :| minv <= r <= maxv; } else { r :| maxv + 1 <= r <= minv; }
  }

  method Roll() returns (b: bool)
  {
    b :| true;
  }

  // ----- sequences of cutoffs -----

  /** Levels up to `last` are enabled, all others disabled. */
  ghost predicate EnabledUpTo(cutoffs: seq<int>, last: int) {
    |cutoffs| == MAX_LEVELS && 1 <= last < MAX_LEVELS &&
    (forall i :: 2 <= i <= last ==> cutoffs[i] < DISABLED) && forall i :: last < i < MAX_LEVELS ==> cutoffs[i] >= DISABLED
  }

  ghost predicate SortedUpTo(cutoffs: seq<int>, last: int)
    requires |cutoffs| == MAX_LEVELS && last < MAX_LEVELS
  {
    forall i, j :: 2 <= i <= j <= last ==> cutoffs[i] <= cutoffs[j]
  }

  /** The cutoffs that a random selector can get: each step adds a value between the last cutoff and `n`. */
  ghost predicate Drawn(vs: seq<int>, n: int) {
    (vs != [] ==> 0 <= vs[0] <= n) &&
    forall i :: 0 < i < |vs| ==> Min(vs[i - 1], n) <= vs[i] - vs[i - 1] <= Max(vs[i - 1], n)
  }

  lemma NothingDrawn(n: int)
    ensures Drawn([], n)
  {
  }

  lemma DrawnMore(vs: seq<int>, n: int, v: int)
    requires Drawn(vs, n)
    requires var last := if vs == [] then 0 else vs[|vs| - 1]; Min(last, n) <= v - last <= Max(last, n)
    requires n >= 0
    ensures Drawn(vs + [v], n)
  {
    hide Min, Max;
    var all := vs + [v];
    forall i | 0 < i < |all|
      ensures Min(all[i - 1], n) <= all[i] - all[i - 1] <= Max(all[i - 1], n)
    {
      assert all[i - 1] == vs[i - 1] && (i < |vs| ==> all[i] == vs[i]);
    }
    if vs == [] { FirstDrawn(n, v); }
  }

  lemma FirstDrawn(n: int, v: int)
    requires n >= 0 && Min(0, n) <= v <= Max(0, n)
    ensures 0 <= v <= n
  {
  }

  function Pow2(k: nat): nat { if k == 0 then 1 else 2 * Pow2(k - 1) }

  lemma {:induction false} DrawnBound(vs: seq<int>, n: int, i: nat)
    requires Drawn(vs, n) && i < |vs|
    ensures n >= 0 && 0 <= vs[i] <= Pow2(i) * n && n <= Pow2(i) * n
    ensures i > 0 ==> vs[i - 1] <= vs[i]
  {
    if i > 0 {
      DrawnBound(vs, n, i - 1);
      Doubled(i, n);
      hide Pow2;
    }
  }

  lemma Doubled(i: nat, n: int)
    requires i > 0
    ensures Pow2(i) * n == 2 * (Pow2(i - 1) * n)
  {
  }

  function Doubling(n: int, k: nat): seq<int> { seq(k, i requires 0 <= i < k => Pow2(i) * n) }

  lemma DoublingIsDrawn(n: nat, k: nat)
    ensures Drawn(Doubling(n, k), n)
  {
    forall i | 0 < i < k
      ensures Min(Doubling(n, k)[i - 1], n) <= Doubling(n, k)[i] - Doubling(n, k)[i - 1] <= Max(Doubling(n, k)[i - 1], n)
    {
      assert Pow2(i) * n == 2 * (Pow2(i - 1) * n);
    }
  }

  /** No cutoff that can be drawn reaches the value that means disabled exactly if `n` is below 2 to the 21st. */
  lemma NeverDisabled(n: nat)
    ensures (forall vs: seq<int>, i :: Drawn(vs, n) && |vs| <= MAX_LEVELS - 2 && 0 <= i < |vs| ==> vs[i] < DISABLED)
      <==> n < 0x20_0000
  {
    PowersOfTwo();
    if n < 0x20_0000 {
      forall vs: seq<int>, i | Drawn(vs, n) && |vs| <= MAX_LEVELS - 2 && 0 <= i < |vs|
        ensures vs[i] < DISABLED
      {
        DrawnBound(vs, n, i);
        PowMonotone(i, 10);
        assert Pow2(i) * n <= 1024 * n;
      }
    } else {
      var vs := Doubling(n, MAX_LEVELS - 2);
      DoublingIsDrawn(n, MAX_LEVELS - 2);
      assert vs[10] == 1024 * n;
    }
  }

  lemma PowersOfTwo()
    ensures Pow2(10) == 1024
  {
    assert Pow2(5) == 32;
  }

  lemma {:induction false} PowMonotone(i: nat, j: nat)
    requires i <= j
    ensures Pow2(i) <= Pow2(j)
  {
    if i < j { PowMonotone(i, j - 1); }
  }

  class Selector {
    const cutoffs: array<int>
    const rules: array<int>
    const ruleCount: nat

    ghost predicate Valid()
      reads this
    {
      cutoffs.Length == MAX_LEVELS && rules.Length == MAX_LEVELS && cutoffs != rules && ruleCount > 0
    }

    ghost predicate RulesInRange()
      requires Valid()
      reads this, rules
    {
      forall i :: 1 <= i < MAX_LEVELS ==> 0 <= rules[i] < ruleCount
    }

    constructor (ruleCount: nat)
      requires ruleCount > 0
      ensures Valid() && this.ruleCount == ruleCount && fresh(cutoffs) && fresh(rules)
    {
      this.ruleCount := ruleCount;
      cutoffs := new int[MAX_LEVELS](_ => DISABLED);
      rules := new int[MAX_LEVELS](_ => 0);
    }

    method RandomRule() returns (r: int)
      requires Valid()
      ensures 0 <= r < ruleCount
    {
      r :| 0 <= r < ruleCount;
    }

    /** Draws the enabled levels. */
    method DrawLevels(levels: int, n: nat)
      requires Valid() && 2 <= levels <= MAX_LEVELS
      modifies cutoffs, rules
      ensures Drawn(cutoffs[2..levels], n) && forall k :: 1 <= k < levels ==> 0 <= rules[k] < ruleCount
    {
      hide Drawn;
      rules[1] := RandomRule();
      var v, i := 0, 2;
      NothingDrawn(n);
      assert cutoffs[2..2] == [];
      while i < levels
        invariant 2 <= i <= levels && Drawn(cutoffs[2..i], n) && v == (if i == 2 then 0 else cutoffs[i - 1])
        invariant forall k :: 1 <= k < i ==> 0 <= rules[k] < ruleCount
      {
        var step := LogUniform(v, n);
        ghost var before := cutoffs[2..i];
        DrawnMore(before, n, v + step);
        v := v + step;
        cutoffs[i] := v;
        rules[i] := RandomRule();
        assert cutoffs[2..i + 1] == before + [v];
        i := i + 1;
      }
    }

    method DisableLevels(levels: int)
      requires Valid() && 2 <= levels <= MAX_LEVELS
      modifies cutoffs, rules
      ensures cutoffs[..levels] == old(cutoffs[..levels]) && rules[..levels] == old(rules[..levels])
      ensures forall k :: levels <= k < MAX_LEVELS ==> cutoffs[k] == DISABLED && rules[k] == 0
    {
      var i := levels;
      while i < MAX_LEVELS
        invariant levels <= i <= MAX_LEVELS
        invariant cutoffs[..levels] == old(cutoffs[..levels]) && rules[..levels] == old(rules[..levels])
        invariant forall k :: levels <= k < i ==> cutoffs[k] == DISABLED && rules[k] == 0
      {
        cutoffs[i] := DISABLED;
        rules[i] := 0;
        i := i + 1;
      }
    }

    /** Draws a new selector: `last` is the highest enabled level. */
    method Randomize(n: nat) returns (ghost last: int)
      requires Valid()
      modifies cutoffs, rules
      ensures 1 <= last < MAX_LEVELS && Drawn(cutoffs[2..last + 1], n) && SortedUpTo(cutoffs[..], last)
      ensures forall i :: last < i < MAX_LEVELS ==> cutoffs[i] == DISABLED
      ensures n < 0x20_0000 ==> EnabledUpTo(cutoffs[..], last)
      ensures RulesInRange()
    {
      hide Drawn, SortedUpTo, EnabledUpTo;
      var levels: int :| 2 <= levels;
      levels := Min(levels, MAX_LEVELS);
      last := levels - 1;
      DrawLevels(levels, n);
      ghost var drawn := cutoffs[..levels];
      ghost var chosen := rules[..levels];
      assert forall k :: 1 <= k < levels ==> 0 <= chosen[k] < ruleCount;
      DisableLevels(levels);
      assert cutoffs[2..levels] == drawn[2..];
      assert forall k :: 1 <= k < levels ==> rules[k] == chosen[k];
      DrawnSorted(cutoffs[..], last, n);
    }

    /**
     * Mutates the cutoffs one level after the other, up to and including the first disabled one. Cutoffs that are safe
     * stay sorted, and within [1, n] if they were.
     */
    method MutateChance(n: int, ghost last: int) returns (ghost last1: int)
      requires Valid() && 1 <= n && EnabledUpTo(cutoffs[..], last) && SortedUpTo(cutoffs[..], last)
      modifies cutoffs, rules
      ensures MayBecome(old(cutoffs[..]), 2, n, cutoffs[..])
      ensures Safe(old(cutoffs[..]), last, n) ==>
        last - 1 <= last1 <= last + 1 && EnabledUpTo(cutoffs[..], last1) && SortedUpTo(cutoffs[..], last1)
      ensures Safe(old(cutoffs[..]), last, n) && Bounded(old(cutoffs[..]), last, n) ==> Bounded(cutoffs[..], last1, n)
      ensures last1 < last ==> DISABLED <= n
      ensures forall i :: 1 <= i < MAX_LEVELS && rules[i] != old(rules[i]) ==> i == last + 1
      ensures old(RulesInRange()) ==> RulesInRange()
    {
      ghost var first := cutoffs[..];
      Mutate(n, last);
      last1 := last;
      if Safe(first, last, n) { last1 := KeptToEnd(first, last, n, 2, cutoffs[..]); }
    }

    method Mutate(n: int, ghost last: int)
      requires Valid() && EnabledUpTo(cutoffs[..], last)
      modifies cutoffs, rules
      ensures MayBecome(old(cutoffs[..]), 2, n, cutoffs[..])
      ensures forall i :: 1 <= i < MAX_LEVELS && rules[i] != old(rules[i]) ==> i == last + 1
      ensures old(RulesInRange()) ==> RulesInRange()
    {
      ghost var first := cutoffs[..];
      hide MayBecome;
      var i := 2;
      while i < MAX_LEVELS
        invariant 2 <= i <= MAX_LEVELS && forall k :: i <= k < MAX_LEVELS ==> cutoffs[k] == first[k]
        invariant i <= last + 1
        invariant forall c1 :: MayBecome(cutoffs[..], i, n, c1) ==> MayBecome(first, 2, n, c1)
        invariant forall k :: 0 <= k < MAX_LEVELS ==> rules[k] == old(rules[k])
      {
        var low := if i == 2 then 1 else cutoffs[i - 1];
        var high := if i == MAX_LEVELS - 1 then n else Min(n, cutoffs[i + 1]);
        ghost var before := cutoffs[..];
        var roll := Roll();
        if cutoffs[i] >= DISABLED {
          if roll {
            cutoffs[i] := LogUniform(low, high);
            rules[i] := RandomRule();
            assert cutoffs[..] == before[i := cutoffs[i]];
          }
          LastLevel(before, i, n, cutoffs[i]);
          assert before[i := before[i]] == before;
          return;
        } else if roll {
          cutoffs[i] := LogNormal(low, high);
          assert cutoffs[..] == before[i := cutoffs[i]];
        }
        assert before[i := before[i]] == before;
        NextLevel(before, i, n, cutoffs[i]);
        i := i + 1;
      }
      NoLevel(cutoffs[..], n);
    }
  }

  /** The highest enabled level after level `i` was set to `v`. */
  function LastAfter(last: int, i: int, v: int): int {
    if v >= DISABLED then Min(last, i - 1) else Max(last, i)
  }

  function Low(cutoffs: seq<int>, i: int): int
    requires 2 <= i < |cutoffs|
  {
    if i == 2 then 1 else cutoffs[i - 1]
  }

  function High(cutoffs: seq<int>, n: int, i: int): int
    requires |cutoffs| == MAX_LEVELS && 2 <= i < MAX_LEVELS
  {
    if i == MAX_LEVELS - 1 then n else Min(n, cutoffs[i + 1])
  }

  // ----- what mutating can lead to -----

  /** From level `i` on, mutating `c` can give `c1`. */
  ghost predicate MayBecome(c: seq<int>, i: int, n: int, c1: seq<int>)
    requires |c| == MAX_LEVELS && 2 <= i <= MAX_LEVELS
    decreases MAX_LEVELS - i
  {
    if i == MAX_LEVELS then c1 == c
    else if c[i] >= DISABLED then
      c1 == c || exists v :: InLogUniform(Low(c, i), High(c, n, i), v) && c1 == c[i := v]
    else
      MayBecome(c, i + 1, n, c1) || exists v :: InLogNormal(Low(c, i), High(c, n, i), v) && MayBecome(c[i := v], i + 1, n, c1)
  }

  lemma NoLevel(c: seq<int>, n: int)
    requires |c| == MAX_LEVELS
    ensures MayBecome(c, MAX_LEVELS, n, c)
  {
  }

  lemma LastLevel(c: seq<int>, i: int, n: int, v: int)
    requires |c| == MAX_LEVELS && 2 <= i < MAX_LEVELS && c[i] >= DISABLED
    requires v == c[i] || InLogUniform(Low(c, i), High(c, n, i), v)
    ensures MayBecome(c, i, n, c[i := v])
  {
    if v == c[i] { assert c[i := v] == c; }
  }

  lemma NextLevel(c: seq<int>, i: int, n: int, v: int)
    requires |c| == MAX_LEVELS && 2 <= i < MAX_LEVELS && c[i] < DISABLED
    requires v == c[i] || InLogNormal(Low(c, i), High(c, n, i), v)
    ensures forall c1 :: MayBecome(c[i := v], i + 1, n, c1) ==> MayBecome(c, i, n, c1)
  {
    if v == c[i] { assert c[i := v] == c; }
  }

  lemma {:induction false} Unchanged(c: seq<int>, i: int, n: int)
    requires |c| == MAX_LEVELS && 2 <= i <= MAX_LEVELS
    ensures MayBecome(c, i, n, c)
    decreases MAX_LEVELS - i
  {
    if i < MAX_LEVELS && c[i] < DISABLED { Unchanged(c, i + 1, n); }
  }

  /** Any one enabled level, or the first disabled one, can be the only one that changes. */
  lemma {:induction false} OneChange(c: seq<int>, i: int, n: int, j: int, v: int)
    requires |c| == MAX_LEVELS && 2 <= i <= j < MAX_LEVELS && forall k :: i <= k < j ==> c[k] < DISABLED
    requires if c[j] < DISABLED then InLogNormal(Low(c, j), High(c, n, j), v) else InLogUniform(Low(c, j), High(c, n, j), v)
    ensures MayBecome(c, i, n, c[j := v])
    decreases j - i
  {
    hide MayBecome;
    if i < j {
      OneChange(c, i + 1, n, j, v);
      NextLevel(c, i, n, c[i]);
      assert c[i := c[i]] == c;
    } else if c[j] < DISABLED {
      Unchanged(c[j := v], j + 1, n);
      NextLevel(c, j, n, v);
    } else {
      LastLevel(c, j, n, v);
    }
  }

  // ----- when that keeps the order -----

  /** The enabled cutoffs lie in [1, n]. */
  ghost predicate Bounded(c: seq<int>, last: int, n: int)
    requires |c| == MAX_LEVELS && last < MAX_LEVELS
  {
    forall i :: 2 <= i <= last ==> 1 <= c[i] <= n
  }

  /** The cutoff before the last level that can be drawn anew is within reach of `n`, and the second one is not 0. */
  predicate Safe(c: seq<int>, last: int, n: int)
    requires |c| == MAX_LEVELS && 1 <= last < MAX_LEVELS
  {
    (3 <= last ==> 1 <= c[3]) && if last + 1 < MAX_LEVELS then 2 <= last ==> c[last] <= n else c[last - 1] <= n + 1
  }

  /** What holds between the levels of a safe mutation, before level `i`. */
  ghost predicate Kept(c: seq<int>, last: int, n: int, i: int) {
    1 <= n && 2 <= i <= MAX_LEVELS && EnabledUpTo(c, last) && SortedUpTo(c, last) &&
    (i == 2 && 3 <= last ==> 1 <= c[3]) &&
    (if last + 1 < MAX_LEVELS then 2 <= last ==> c[last] <= n else c[last - 1] <= n + 1) &&
    (i <= last + 1 || (i == last + 2 && DISABLED <= n && DISABLED <= c[last + 1]))
  }

  lemma DrawnBetween(c: seq<int>, last: int, n: int, i: int, v: int)
    requires Kept(c, last, n, i) && i <= last && InLogNormal(Low(c, i), High(c, n, i), v)
    ensures Low(c, i) <= v && (i < last ==> v <= c[i + 1])
    ensures if i < last || last + 1 < MAX_LEVELS then v <= Max(n, Low(c, i)) else v <= Max(n, c[last - 1])
  {
  }

  /** Whatever an enabled level becomes, the order is kept. */
  lemma SetEnabled(c: seq<int>, last: int, n: int, i: int, v: int)
    requires Kept(c, last, n, i) && i <= last && InLogNormal(Low(c, i), High(c, n, i), v)
    ensures Kept(c[i := v], LastAfter(last, i, v), n, i + 1)
    ensures Bounded(c, last, n) ==> Bounded(c[i := v], LastAfter(last, i, v), n)
  {
    hide InLogNormal, High;
    DrawnBetween(c, last, n, i, v);
    if v >= DISABLED { SetTooLarge(c, last, n, i, v); } else { SetInOrder(c, last, n, i, v); }
  }

  lemma SetInOrder(c: seq<int>, last: int, n: int, i: int, v: int)
    requires Kept(c, last, n, i) && i <= last && Low(c, i) <= v < DISABLED && (i < last ==> v <= c[i + 1])
    requires if i < last || last + 1 < MAX_LEVELS then v <= Max(n, Low(c, i)) else v <= Max(n, c[last - 1])
    ensures Kept(c[i := v], last, n, i + 1) && (Bounded(c, last, n) ==> Bounded(c[i := v], last, n))
  {
    StillSorted(c, last, i, v);
    hide SortedUpTo;
  }

  lemma StillSorted(c: seq<int>, last: int, i: int, v: int)
    requires EnabledUpTo(c, last) && SortedUpTo(c, last) && 2 <= i <= last && Low(c, i) <= v < DISABLED
    requires (2 < i ==> c[i - 1] <= v) && (i < last ==> v <= c[i + 1])
    ensures EnabledUpTo(c[i := v], last) && SortedUpTo(c[i := v], last)
  {
  }

  lemma SetTooLarge(c: seq<int>, last: int, n: int, i: int, v: int)
    requires Kept(c, last, n, i) && i <= last && DISABLED <= v && (i < last ==> v <= c[i + 1])
    requires if i < last || last + 1 < MAX_LEVELS then v <= Max(n, Low(c, i)) else v <= Max(n, c[last - 1])
    ensures i == last && Kept(c[i := v], last - 1, n, i + 1) && (Bounded(c, last, n) ==> Bounded(c[i := v], last - 1, n))
  {
  }

  lemma KeptIs(c: seq<int>, last: int, n: int, i: int)
    requires Kept(c, last, n, i)
    ensures EnabledUpTo(c, last) && SortedUpTo(c, last) && 2 <= i <= MAX_LEVELS && i <= last + 2
    ensures i < MAX_LEVELS ==> (c[i] >= DISABLED <==> i > last)
  {
  }

  lemma SkipEnabled(c: seq<int>, last: int, n: int, i: int)
    requires Kept(c, last, n, i) && i <= last
    ensures Kept(c, last, n, i + 1)
  {
  }

  lemma DrawnAbove(c: seq<int>, last: int, n: int, i: int, v: int)
    requires Kept(c, last, n, i) && last < i < MAX_LEVELS && InLogUniform(Low(c, i), High(c, n, i), v)
    ensures v < DISABLED ==> i == last + 1 && v <= n && (if 2 <= last then c[last] <= v else 1 <= v)
  {
  }

  lemma SetDisabled(c: seq<int>, last: int, n: int, i: int, v: int)
    requires Kept(c, last, n, i) && last < i < MAX_LEVELS && InLogUniform(Low(c, i), High(c, n, i), v)
    ensures var last1 := if v >= DISABLED then last else i;
      EnabledUpTo(c[i := v], last1) && SortedUpTo(c[i := v], last1) && last1 <= last + 1 &&
      (Bounded(c, last, n) ==> Bounded(c[i := v], last1, n))
  {
    hide InLogUniform, High, Low;
    DrawnAbove(c, last, n, i, v);
  }

  lemma {:induction false} KeptToEnd(c: seq<int>, last: int, n: int, i: int, c1: seq<int>) returns (last1: int)
    requires Kept(c, last, n, i) && MayBecome(c, i, n, c1)
    ensures EnabledUpTo(c1, last1) && SortedUpTo(c1, last1) && last - 1 <= last1 <= last + 1
    ensures last1 < last ==> i <= last && DISABLED <= n
    ensures i == last + 2 ==> last1 == last
    ensures Bounded(c, last, n) ==> Bounded(c1, last1, n)
    decreases MAX_LEVELS - i
  {
    hide Kept, EnabledUpTo, SortedUpTo, Bounded;
    KeptIs(c, last, n, i);
    last1 := last;
    if c1 == c {
    } else if i > last {
      var v :| InLogUniform(Low(c, i), High(c, n, i), v) && c1 == c[i := v];
      SetDisabled(c, last, n, i, v);
      last1 := if v >= DISABLED then last else i;
    } else if MayBecome(c, i + 1, n, c1) {
      SkipEnabled(c, last, n, i);
      last1 := KeptToEnd(c, last, n, i + 1, c1);
    } else {
      var v :| InLogNormal(Low(c, i), High(c, n, i), v) && MayBecome(c[i := v], i + 1, n, c1);
      SetEnabled(c, last, n, i, v);
      last1 := KeptToEnd(c[i := v], LastAfter(last, i, v), n, i + 1, c1);
    }
  }

  /** Some enabled levels, in order, and no others. */
  ghost predicate Orderly(c: seq<int>) {
    exists last :: EnabledUpTo(c, last) && SortedUpTo(c, last)
  }

  /** Mutation keeps enabled cutoffs sorted, whatever is drawn, exactly if they are safe. */
  lemma StaysOrderly(c: seq<int>, last: int, n: int)
    requires 1 <= n && EnabledUpTo(c, last) && SortedUpTo(c, last)
    ensures (forall c1 :: MayBecome(c, 2, n, c1) ==> Orderly(c1)) <==> Safe(c, last, n)
  {
    hide MayBecome;
    if Safe(c, last, n) {
      forall c1 | MayBecome(c, 2, n, c1)
        ensures Orderly(c1)
      {
        var last1 := KeptToEnd(c, last, n, 2, c1);
      }
    } else {
      var j, v := Disorder(c, last, n);
      OneChange(c, 2, n, j, v);
      assert !Orderly(c[j := v]);
    }
  }

  /** Where cutoffs are not safe, one draw can bring them out of order. */
  lemma Disorder(c: seq<int>, last: int, n: int) returns (j: int, v: int)
    requires 1 <= n && EnabledUpTo(c, last) && SortedUpTo(c, last) && !Safe(c, last, n)
    ensures 2 <= j < MAX_LEVELS && !Orderly(c[j := v]) && forall k :: 2 <= k < j ==> c[k] < DISABLED
    ensures if c[j] < DISABLED then InLogNormal(Low(c, j), High(c, n, j), v) else InLogUniform(Low(c, j), High(c, n, j), v)
  {
    if 3 <= last && c[3] < 1 {
      j, v := 2, 1;
      Unsorted(c[2 := 1], 2, last);
    } else if last + 1 < MAX_LEVELS {
      j, v := last + 1, n;
      Unsorted(c[j := n], last, last + 1);
    } else {
      j, v := last, n + 1;
      Unsorted(c[j := n + 1], last - 1, last);
    }
  }

  lemma Unsorted(c: seq<int>, i: int, last: int)
    requires |c| == MAX_LEVELS && 2 <= i < last < MAX_LEVELS && c[i] > c[i + 1]
    requires forall k :: 2 <= k <= last ==> c[k] < DISABLED
    ensures !Orderly(c)
  {
    forall other | EnabledUpTo(c, other)
      ensures !SortedUpTo(c, other)
    {
      assert c[last] < DISABLED;
      assert i <= i + 1 <= last <= other;
    }
  }

  /** A selector drawn for `n` equal to 100 that a mutation for the same `n` can bring out of order. */
  lemma DrawnCanBreak() returns (c: seq<int>)
    ensures |c| == MAX_LEVELS && c[2..5] == [50, 150, 300] && Drawn(c[2..5], 100)
    ensures EnabledUpTo(c, 4) && SortedUpTo(c, 4) && exists c1 :: MayBecome(c, 2, 100, c1) && !Orderly(c1)
  {
    hide MayBecome;
    c := seq(MAX_LEVELS, i => if i == 2 then 50 else if i == 3 then 150 else if i == 4 then 300 else DISABLED);
    assert c[2..5] == [50, 150, 300];
    StaysOrderly(c, 4, 100);
  }

  lemma {:induction false} DrawnMonotone(vs: seq<int>, n: int, i: nat, j: nat)
    requires Drawn(vs, n) && i <= j < |vs|
    ensures vs[i] <= vs[j]
  {
    if i < j {
      DrawnMonotone(vs, n, i, j - 1);
      DrawnBound(vs, n, j);
    }
  }

  lemma DrawnSorted(cutoffs: seq<int>, last: int, n: nat)
    requires |cutoffs| == MAX_LEVELS && 1 <= last < MAX_LEVELS && Drawn(cutoffs[2..last + 1], n)
    requires forall i :: last < i < MAX_LEVELS ==> cutoffs[i] == DISABLED
    ensures SortedUpTo(cutoffs, last)
    ensures n < 0x20_0000 ==> EnabledUpTo(cutoffs, last)
  {
    var vs := cutoffs[2..last + 1];
    forall i, j | 2 <= i <= j <= last
      ensures cutoffs[i] <= cutoffs[j]
    {
      DrawnMonotone(vs, n, i - 2, j - 2);
    }
    NeverDisabled(n);
    assert forall i :: 2 <= i <= last ==> cutoffs[i] == vs[i - 2];
  }
}
