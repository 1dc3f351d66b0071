// The tuner's bookkeeping: scores of mutators, delta-coded cutoffs, and the sliding log of results.

module RocScore {
  /** How many entries are, or are not, this mutator's. */
  function Count(own: seq<bool>, mine: bool): nat {
    if own == [] then 0 else Count(own[1..], mine) + if own[0] == mine then 1 else 0
  }

  /** For every entry of this mutator, the number of entries of others behind it. */
  function PairCount(own: seq<bool>): nat {
    if own == [] then 0 else PairCount(own[1..]) + if own[0] then Count(own[1..], false) else 0
  }

  /** The pairs of log positions where an entry of this mutator comes before an entry of another. */
  ghost function Pairs(own: seq<bool>): set<(int, int)> {
    set i, j | 0 <= i < j < |own| && own[i] && !own[j] :: (i, j)
  }

  ghost function Places(own: seq<bool>): set<int> { set i | 0 <= i < |own| && own[i] }

  lemma {:induction false} AtEnd(own: seq<bool>, last: bool)
    ensures forall mine :: Count(own + [last], mine) == Count(own, mine) + if last == mine then 1 else 0
    ensures PairCount(own + [last]) == PairCount(own) + if last then 0 else Count(own, true)
  {
    if own != [] {
      assert (own + [last])[1..] == own[1..] + [last];
      AtEnd(own[1..], last);
    }
  }

  /** `computeRocScore`, where `own` says which entries of the log, best first, are this mutator's. */
  method ComputeRocScore(own: seq<bool>) returns (integral: int)
    ensures integral == |Pairs(own)| == PairCount(own)
  {
    hide Count, PairCount, Pairs;
    NoEntries();
    var x, y, k := 0, 0, 0;
    integral := 0;
    assert own[..0] == [];
    while k < |own|
      invariant 0 <= k <= |own| && y == Count(own[..k], true) && integral == PairCount(own[..k])
    {
      var newX, newY := x, y;
      if own[k] { newY := y + 1; } else { newX := x + 1; }
      Area(newX - x, newY - y, y);
      integral := integral + (newX - x) * y + (newX - x) * (newY - y) / 2;
      AtEnd(own[..k], own[k]);
      assert own[..k + 1] == own[..k] + [own[k]];
      x, y, k := newX, newY, k + 1;
    }
    assert own[..k] == own;
    CountsPairs(own);
  }

  lemma NoEntries()
    ensures Count([], true) == 0 && PairCount([]) == 0
  {
  }

  /** One step goes up or to the right. */
  lemma Area(dx: int, dy: int, y: int)
    requires (dx == 0 && dy == 1) || (dx == 1 && dy == 0)
    ensures dx * y + dx * dy / 2 == if dx == 1 then y else 0
  {
  }

  ghost function Paired(s: set<int>, n: int): set<(int, int)> { set i | i in s :: (i, n) }

  lemma PairedMore(s: set<int>, m: int, n: int)
    requires m !in s
    ensures |Paired(s + {m}, n)| == |Paired(s, n)| + 1
  {
    assert Paired(s + {m}, n) == Paired(s, n) + {(m, n)};
  }

  lemma {:induction false} PairedSize(own: seq<bool>, n: int)
    ensures |Paired(Places(own), n)| == |Places(own)|
  {
    if own == [] {
      assert Places(own) == {} && Paired({}, n) == {};
    } else {
      var m := |own| - 1;
      PairedSize(own[..m], n);
      assert own == own[..m] + [own[m]];
      MorePairs(own[..m], own[m]);
      var before := Places(own[..m]);
      assert m !in before;
      PairedMore(before, m, n);
      hide Paired, Places, Pairs;
      if !own[m] { assert before + {} == before; }
    }
  }

  lemma MorePairs(own: seq<bool>, last: bool)
    ensures Pairs(own + [last]) == Pairs(own) + if last then {} else Paired(Places(own), |own|)
    ensures Places(own + [last]) == Places(own) + if last then {|own|} else {}
  {
    var all, n := own + [last], |own|;
    assert forall i :: 0 <= i < n ==> all[i] == own[i];
    forall i, j | (i, j) in Pairs(all) && j < n
      ensures (i, j) in Pairs(own)
    {
    }
  }

  lemma {:induction false} CountsPairs(own: seq<bool>)
    ensures |Pairs(own)| == PairCount(own) && |Places(own)| == Count(own, true)
  {
    hide Count, PairCount, Pairs, Places, Paired;
    if own == [] {
      NoEntries();
      NoPlaces();
    } else {
      var n := |own| - 1;
      CountsPairs(own[..n]);
      assert own == own[..n] + [own[n]];
      AtEnd(own[..n], own[n]);
      MorePairs(own[..n], own[n]);
      PairedSize(own[..n], n);
      NewPairs(own[..n]);
    }
  }

  lemma NoPlaces()
    ensures Pairs([]) == {} && Places([]) == {}
  {
  }

  lemma NewPairs(own: seq<bool>)
    ensures Pairs(own) !! Paired(Places(own), |own|) && |own| !in Places(own)
  {
  }

  function Reverse(s: seq<bool>): (r: seq<bool>)
    ensures |r| == |s| && forall i :: 0 <= i < |s| ==> r[i] == s[|s| - 1 - i]
  {
    if s == [] then [] else Reverse(s[1..]) + [s[0]]
  }

  /** The score of a log and that of its reverse add up to all pairs of an own entry and another's. */
  lemma {:induction false} ScoreAndReverse(own: seq<bool>)
    ensures Count(Reverse(own), true) == Count(own, true) && Count(Reverse(own), false) == Count(own, false)
    ensures PairCount(own) + PairCount(Reverse(own)) == Count(own, true) * Count(own, false)
  {
    if own != [] {
      var rest := own[1..];
      ScoreAndReverse(rest);
      AtEnd(Reverse(rest), own[0]);
      Products(Count(rest, true), Count(rest, false));
      hide Reverse, Count, PairCount;
    }
  }

  lemma Products(t: int, f: int)
    ensures (t + 1) * f == t * f + f && t * (f + 1) == t * f + t
  {
  }
}

module Cutoffs {
  const MAX := 0x4000_0000

  /** The sum of the first `i` deltas. */
  function Sum(deltas: seq<int>, i: nat): int
    requires i <= |deltas|
  {
    if i == 0 then 0 else Sum(deltas, i - 1) + deltas[i - 1]
  }

  /** How many levels, from the lowest, are below the maximum. */
  function Enabled(levels: seq<int>): (k: nat)
    ensures k <= |levels| && (forall i :: 0 <= i < k ==> levels[i] < MAX) && (k < |levels| ==> levels[k] >= MAX)
  {
    if levels == [] || levels[0] >= MAX then 0
    else
      assert forall i :: 0 < i < |levels| ==> levels[1..][i - 1] == levels[i];
      1 + Enabled(levels[1..])
  }

  /** The differences between successive levels, the first one counted from 0. */
  function Deltas(levels: seq<int>): (ds: seq<int>)
    ensures |ds| == |levels|
    ensures forall i :: 0 <= i < |ds| ==> ds[i] == levels[i] - if i == 0 then 0 else levels[i - 1]
  {
    seq(|levels|, i requires 0 <= i < |levels| => levels[i] - if i == 0 then 0 else levels[i - 1])
  }

  lemma DeltasStep(levels: seq<int>, i: nat)
    requires i < |levels|
    ensures Deltas(levels[..i + 1]) == Deltas(levels[..i]) + [levels[i] - if i == 0 then 0 else levels[i - 1]]
  {
    var ds := Deltas(levels[..i]) + [levels[i] - if i == 0 then 0 else levels[i - 1]];
    assert forall j :: 0 <= j <= i ==> Deltas(levels[..i + 1])[j] == ds[j];
  }

  /** `getCutoffs`: `levels` holds the cutoffs that the configuration has. */
  method GetCutoffs(levels: array<int>) returns (rv: seq<int>)
    ensures rv == Deltas(levels[..Enabled(levels[..])])
  {
    hide Enabled, Deltas;
    rv := [];
    var last, i := 0, 0;
    assert levels[..0] == [];
    while i < levels.Length
      invariant 0 <= i <= Enabled(levels[..]) && rv == Deltas(levels[..i])
      invariant last == if i == 0 then 0 else levels[i - 1]
    {
      var co := levels[i];
      if co >= MAX { break; }
      DeltasStep(levels[..], i);
      assert levels[..][..i] == levels[..i] && levels[..][..i + 1] == levels[..i + 1];
      rv := rv + [co - last];
      last := co;
      i := i + 1;
    }
  }

  /** Where the sums of the deltas first reach the maximum, the deltas or the levels end. */
  function Fitting(deltas: seq<int>, room: nat, i: nat := 0): (k: nat)
    requires i <= |deltas| && i <= room
    ensures i <= k <= |deltas| && k <= room
    ensures forall j :: i < j <= k ==> Sum(deltas, j) < MAX
    ensures k < |deltas| && k < room ==> Sum(deltas, k + 1) >= MAX
    decreases |deltas| - i
  {
    if i == |deltas| || i == room || Sum(deltas, i + 1) >= MAX then i else Fitting(deltas, room, i + 1)
  }

  /** By how much the sums up to the `i`-th ever exceed the maximum. */
  function Excess(deltas: seq<int>, i: nat): (x: nat)
    requires i <= |deltas|
    ensures Sum(deltas, i) - MAX <= x
  {
    if i == 0 then 0 else Max(Excess(deltas, i - 1), Sum(deltas, i) - MAX)
  }

  function Max(a: int, b: int): int { if a < b then b else a }

  lemma {:induction false} ExcessIsLargest(deltas: seq<int>, i: nat, j: nat)
    requires j <= i <= |deltas|
    ensures Sum(deltas, j) - MAX <= Excess(deltas, i)
  {
    if j < i { ExcessIsLargest(deltas, i - 1, j); }
  }

  lemma {:induction false} ExcessIsReached(deltas: seq<int>, i: nat) returns (j: nat)
    requires i <= |deltas|
    ensures Excess(deltas, i) == 0 || (j <= i && Excess(deltas, i) == Sum(deltas, j) - MAX)
  {
    j := i;
    if i > 0 && Excess(deltas, i) == Excess(deltas, i - 1) { j := ExcessIsReached(deltas, i - 1); }
  }

  /** What a sum loses at the maximum stays lost for the levels above. */
  function Level(deltas: seq<int>, i: nat): (level: int)
    requires i < |deltas|
    ensures level <= MAX
  {
    Sum(deltas, i + 1) - Excess(deltas, i + 1)
  }

  ghost predicate NonNegative(deltas: seq<int>) { forall i :: 0 <= i < |deltas| ==> deltas[i] >= 0 }

  lemma {:induction false} LevelsFit(deltas: seq<int>, k: nat, i: nat)
    requires i <= k <= |deltas| && forall j :: 0 < j <= k ==> Sum(deltas, j) < MAX
    ensures Excess(deltas, i) == 0
    ensures 0 < i ==> Level(deltas, i - 1) == Sum(deltas, i)
  {
    if i > 0 { LevelsFit(deltas, k, i - 1); }
  }

  lemma {:induction false} LevelsRise(deltas: seq<int>, i: nat, j: nat)
    requires NonNegative(deltas) && i <= j < |deltas|
    ensures Level(deltas, i) <= Level(deltas, j)
  {
    if i < j {
      LevelsRise(deltas, i, j - 1);
      assert Sum(deltas, j + 1) == Sum(deltas, j) + deltas[j];
    }
  }

  /** `setCutoffs`. */
  method SetCutoffs(levels: array<int>, deltas: seq<int>)
    modifies levels
    ensures forall i :: 0 <= i < levels.Length ==> levels[i] == if i < |deltas| then Level(deltas, i) else MAX
    ensures forall i :: 0 <= i < Fitting(deltas, levels.Length) ==> levels[i] == Sum(deltas, i + 1)
    ensures Fitting(deltas, levels.Length) < levels.Length ==> levels[Fitting(deltas, levels.Length)] == MAX
    ensures NonNegative(deltas) ==> forall i, j :: 0 <= i <= j < levels.Length ==> levels[i] <= levels[j] <= MAX
  {
    hide Fitting;
    var last, i := 0, 0;
    while i < levels.Length
      invariant 0 <= i <= levels.Length
      invariant i <= |deltas| ==> last == Sum(deltas, i) - Excess(deltas, i)
      invariant forall j :: 0 <= j < i ==> levels[j] == if j < |deltas| then Level(deltas, j) else MAX
    {
      if |deltas| > i { last := last + deltas[i]; } else { last := MAX; }
      if last > MAX { last := MAX; }
      levels[i] := last;
      i := i + 1;
    }
    LevelsAre(deltas, levels.Length);
  }

  lemma LevelsAre(deltas: seq<int>, room: nat)
    ensures var k := Fitting(deltas, room);
      (forall i :: 0 <= i < k ==> Level(deltas, i) == Sum(deltas, i + 1)) &&
      (k < |deltas| && k < room ==> Level(deltas, k) == MAX)
    ensures NonNegative(deltas) ==> forall i, j :: 0 <= i <= j < |deltas| ==> Level(deltas, i) <= Level(deltas, j)
  {
    var k := Fitting(deltas, room);
    forall i | 0 <= i < k
      ensures Level(deltas, i) == Sum(deltas, i + 1)
    {
      LevelsFit(deltas, k, i + 1);
    }
    LevelsFit(deltas, k, k);
    if NonNegative(deltas) {
      forall i, j | 0 <= i <= j < |deltas|
        ensures Level(deltas, i) <= Level(deltas, j)
      {
        LevelsRise(deltas, i, j);
      }
    }
  }

  lemma {:induction false} DeltasOfSums(levels: seq<int>, deltas: seq<int>, i: nat)
    requires i <= |levels| && i <= |deltas| && forall j :: 0 <= j < i ==> levels[j] == Sum(deltas, j + 1)
    ensures Deltas(levels[..i]) == deltas[..i]
  {
    if i > 0 {
      DeltasOfSums(levels, deltas, i - 1);
      assert levels[i - 1] == Sum(deltas, i) == Sum(deltas, i - 1) + deltas[i - 1];
      assert i > 1 ==> levels[i - 2] == Sum(deltas, i - 1);
      assert Deltas(levels[..i])[i - 1] == deltas[i - 1];
      assert Deltas(levels[..i]) == Deltas(levels[..i - 1]) + [deltas[i - 1]];
    }
  }

  lemma {:induction false} SumsOfDeltas(levels: seq<int>, i: nat)
    requires i <= |levels|
    ensures Sum(Deltas(levels), i) == if i == 0 then 0 else levels[i - 1]
  {
    if i > 0 { SumsOfDeltas(levels, i - 1); }
  }

  lemma FittingAll(deltas: seq<int>, room: nat)
    ensures Fitting(deltas, room) == |deltas| ==>
      |deltas| <= room && forall j :: 0 < j <= |deltas| ==> Sum(deltas, j) < MAX
    ensures |deltas| <= room && Fitting(deltas, room) < |deltas| ==> exists j :: 0 < j <= |deltas| && Sum(deltas, j) >= MAX
  {
    var k := Fitting(deltas, room);
    if k < |deltas| <= room { assert Sum(deltas, k + 1) >= MAX; }
  }

  /** Cutoffs that are written can be read back exactly if there is a level for each and their sums stay below the maximum. */
  method WriteThenRead(levels: array<int>, deltas: seq<int>) returns (rv: seq<int>)
    modifies levels
    ensures rv == deltas[..Fitting(deltas, levels.Length)]
    ensures rv == deltas <==> |deltas| <= levels.Length && forall j :: 0 < j <= |deltas| ==> Sum(deltas, j) < MAX
  {
    SetCutoffs(levels, deltas);
    ghost var k := Fitting(deltas, levels.Length);
    rv := GetCutoffs(levels);
    assert Enabled(levels[..]) == k;
    DeltasOfSums(levels[..], deltas, k);
    FittingAll(deltas, levels.Length);
  }

  /** Reading the cutoffs and writing them back keeps the enabled levels and sets all others to the maximum. */
  method ReadThenWrite(levels: array<int>)
    modifies levels
    ensures var k := Enabled(old(levels[..]));
      levels[..k] == old(levels[..k]) && forall i :: k <= i < levels.Length ==> levels[i] == MAX
  {
    ghost var before := levels[..];
    ghost var k := Enabled(before);
    var deltas := GetCutoffs(levels);
    forall j | 0 <= j <= k
      ensures Sum(deltas, j) == if j == 0 then 0 else before[j - 1]
    {
      SumsOfDeltas(before[..k], j);
    }
    FittingAll(deltas, levels.Length);
    SetCutoffs(levels, deltas);
  }
}

module MutatorLogs {
  datatype Entry = Entry(id: nat, mutator: int, time: real, accuracy: real)

  /** The last `w` entries, or all. */
  function Last(s: seq<Entry>, w: nat): seq<Entry> { if |s| <= w then s else s[|s| - w..] }

  ghost predicate Ordered(s: seq<Entry>) { forall i, j :: 0 <= i < j < |s| ==> s[i].id < s[j].id }

  /** A sort key; Python's sort is stable. */
  ghost predicate SortedBy(s: seq<Entry>, key: Entry -> real) {
    forall i, j :: 0 <= i < j < |s| ==> key(s[i]) <= key(s[j])
  }

  /** Equal keys stay in order: the entries with one key form the same sequence before and after. */
  function WithKey(s: seq<Entry>, key: Entry -> real, v: real): seq<Entry> {
    if s == [] then []
    else if key(s[0]) == v then [s[0]] + WithKey(s[1..], key, v)
    else WithKey(s[1..], key, v)
  }

  /** `at` are the places of the entries with the key `v`, in order. */
  ghost predicate PlacesOf(s: seq<Entry>, key: Entry -> real, v: real, at: seq<nat>) {
    (forall i, j :: 0 <= i < j < |at| ==> at[i] < at[j]) && (forall i :: 0 <= i < |at| ==> at[i] < |s|) &&
    forall k: nat :: k < |s| ==> (k in at <==> key(s[k]) == v)
  }

  lemma {:induction false} WithKeyPicks(s: seq<Entry>, key: Entry -> real, v: real) returns (at: seq<nat>)
    ensures PlacesOf(s, key, v, at) && |at| == |WithKey(s, key, v)|
    ensures forall i :: 0 <= i < |at| ==> WithKey(s, key, v)[i] == s[at[i]]
  {
    hide PlacesOf;
    if s == [] {
      at := [];
      NoPlaces(key, v);
    } else {
      var rest := WithKeyPicks(s[1..], key, v);
      at := PlacesBehind(s, key, v, rest);
      PlacesInside(s, key, v, at);
      PlacesInside(s[1..], key, v, rest);
      var n := |at| - |rest|;
      var r := WithKey(s[1..], key, v);
      assert WithKey(s, key, v) == if n == 1 then [s[0]] + r else r;
      forall i | 0 <= i < |at|
        ensures WithKey(s, key, v)[i] == s[at[i]]
      {
        if i >= n {
          assert at[n + (i - n)] == rest[i - n] + 1 && s[at[i]] == s[1..][rest[i - n]];
        }
      }
    }
  }

  lemma NoPlaces(key: Entry -> real, v: real)
    ensures PlacesOf([], key, v, [])
  {
  }

  lemma PlacesInside(s: seq<Entry>, key: Entry -> real, v: real, at: seq<nat>)
    requires PlacesOf(s, key, v, at)
    ensures forall i :: 0 <= i < |at| ==> at[i] < |s|
  {
  }

  lemma PlacesBehind(s: seq<Entry>, key: Entry -> real, v: real, rest: seq<nat>) returns (at: seq<nat>)
    requires s != [] && PlacesOf(s[1..], key, v, rest)
    ensures PlacesOf(s, key, v, at)
    ensures var n := |at| - |rest|;
      n == (if key(s[0]) == v then 1 else 0) && (n == 1 ==> at[0] == 0) && forall i :: 0 <= i < |rest| ==> at[n + i] == rest[i] + 1
  {
    var moved: seq<nat> := seq(|rest|, i requires 0 <= i < |rest| => rest[i] + 1);
    at := if key(s[0]) == v then [0] + moved else moved;
    forall k: nat | k < |s|
      ensures k in at <==> key(s[k]) == v
    {
      if k > 0 {
        assert s[k] == s[1..][k - 1];
        assert k in moved <==> k - 1 in rest by { MovedPlaces(rest, moved, k); }
      }
    }
  }

  lemma MovedPlaces(rest: seq<nat>, moved: seq<nat>, k: nat)
    requires |moved| == |rest| && (forall i :: 0 <= i < |rest| ==> moved[i] == rest[i] + 1) && k > 0
    ensures k in moved <==> k - 1 in rest
  {
    if k - 1 in rest {
      var i :| 0 <= i < |rest| && rest[i] == k - 1;
      assert moved[i] == k;
    }
  }

  function Insert(e: Entry, s: seq<Entry>, key: Entry -> real): (r: seq<Entry>)
    ensures |r| == |s| + 1
  {
    if s == [] || key(e) <= key(s[0]) then [e] + s else [s[0]] + Insert(e, s[1..], key)
  }

  /** `sorted(…, key=…)`. */
  function Sort(s: seq<Entry>, key: Entry -> real): (r: seq<Entry>)
    ensures |r| == |s|
  {
    if s == [] then [] else Insert(s[0], Sort(s[1..], key), key)
  }

  lemma {:induction false} InsertAdds(e: Entry, s: seq<Entry>, key: Entry -> real)
    ensures multiset(Insert(e, s, key)) == multiset{e} + multiset(s)
  {
    if s != [] && key(e) > key(s[0]) {
      InsertAdds(e, s[1..], key);
      assert s == [s[0]] + s[1..];
    }
  }

  lemma {:induction false} InsertSorts(e: Entry, s: seq<Entry>, key: Entry -> real)
    requires SortedBy(s, key)
    ensures SortedBy(Insert(e, s, key), key)
    ensures s != [] && key(e) > key(s[0]) ==> Insert(e, s, key)[0] == s[0]
  {
    if s != [] && key(e) > key(s[0]) {
      var rest := Insert(e, s[1..], key);
      InsertSorts(e, s[1..], key);
      assert key(s[0]) <= key(rest[0]);
      SortedBehind(s[0], rest, key);
    }
  }

  lemma SortedBehind(first: Entry, s: seq<Entry>, key: Entry -> real)
    requires SortedBy(s, key) && (s != [] ==> key(first) <= key(s[0]))
    ensures SortedBy([first] + s, key)
  {
    forall j | 0 <= j < |s|
      ensures key(first) <= key(s[j])
    {
      assert key(s[0]) <= key(s[j]);
    }
  }

  lemma {:induction false} InsertStable(e: Entry, s: seq<Entry>, key: Entry -> real, v: real)
    ensures WithKey(Insert(e, s, key), key, v) == WithKey([e] + s, key, v)
  {
    if s != [] && key(e) > key(s[0]) {
      InsertStable(e, s[1..], key, v);
      assert ([e] + s)[1..] == s && ([e] + s[1..])[1..] == s[1..];
    }
  }

  /** A sorted view is a permutation of the log in the order of the key, and entries with equal keys keep their order. */
  lemma {:induction false} SortSorts(s: seq<Entry>, key: Entry -> real)
    ensures SortedBy(Sort(s, key), key) && multiset(Sort(s, key)) == multiset(s)
    ensures forall v :: WithKey(Sort(s, key), key, v) == WithKey(s, key, v)
  {
    hide WithKey, Insert, SortedBy;
    if s == [] {
      NothingToSort(key);
    } else {
      SortSorts(s[1..], key);
      InsertAdds(s[0], Sort(s[1..], key), key);
      InsertSorts(s[0], Sort(s[1..], key), key);
      assert s == [s[0]] + s[1..];
      forall v
        ensures WithKey(Sort(s, key), key, v) == WithKey(s, key, v)
      {
        FirstStable(s, key, v);
      }
    }
  }

  lemma NothingToSort(key: Entry -> real)
    ensures SortedBy([], key) && Sort([], key) == []
  {
  }

  lemma FirstStable(s: seq<Entry>, key: Entry -> real, v: real)
    requires s != [] && WithKey(Sort(s[1..], key), key, v) == WithKey(s[1..], key, v)
    ensures WithKey(Sort(s, key), key, v) == WithKey(s, key, v)
  {
    hide Insert;
    var rest := Sort(s[1..], key);
    InsertStable(s[0], rest, key, v);
    assert ([s[0]] + rest)[1..] == rest;
  }

  function ById(e: Entry): real { e.id as real }

  /** Two orders of the same entries by increasing ids are the same. */
  lemma {:induction false} OneOrder(a: seq<Entry>, b: seq<Entry>)
    requires multiset(a) == multiset(b) && Ordered(b) && SortedBy(a, ById)
    ensures a == b
  {
    assert |multiset(a)| == |a| && |multiset(b)| == |b|;
    if a != [] {
      SameFirst(a, b);
      TailEntries(a);
      TailEntries(b);
      OneOrder(a[1..], b[1..]);
    }
  }

  lemma TailEntries(s: seq<Entry>)
    requires s != []
    ensures multiset(s[1..]) == multiset(s) - multiset{s[0]}
  {
    assert s == [s[0]] + s[1..];
  }

  lemma SameFirst(a: seq<Entry>, b: seq<Entry>)
    requires multiset(a) == multiset(b) && Ordered(b) && SortedBy(a, ById) && a != [] && b != []
    ensures a[0] == b[0]
  {
    assert a[0] in multiset(b) && b[0] in multiset(a);
    var i :| 0 <= i < |b| && b[i] == a[0];
    var j :| 0 <= j < |a| && a[j] == b[0];
    assert ById(a[0]) <= ById(a[j]);
  }

  class MutatorLog {
    var log: seq<Entry>
    ghost var history: seq<Entry>  // everything ever added

    /** The log holds the last entries of the history, in some order. */
    ghost predicate Valid(window: nat)
      reads this
    {
      Ordered(history) && multiset(log) == multiset(Last(history, window))
    }

    constructor (window: nat)
      ensures Valid(window) && log == [] && history == []
    {
      log, history := [], [];
    }

    /** Adds an entry in front; a full log first loses its oldest entry. Entries are numbered in the order they come. */
    method Add(window: nat, e: Entry)
      requires 1 <= window && Valid(window) && forall i :: 0 <= i < |history| ==> history[i].id < e.id
      modifies this
      ensures Valid(window) && history == old(history) + [e] && log != [] && log[0] == e
    {
      hide Sort, SortedBy, Ordered;
      ghost var kept := Last(history, window);
      LastAdd(history, e, window);
      assert |log| == |multiset(log)| == |kept|;
      if |log| >= window {
        SortSorts(log, ById);
        log := Sort(log, ById);
        OneOrder(log, kept);
        log := log[1..];
      }
      log := [e] + log;
      history := history + [e];
    }
  }

  lemma LastAdd(history: seq<Entry>, e: Entry, w: nat)
    requires 1 <= w && Ordered(history) && forall i :: 0 <= i < |history| ==> history[i].id < e.id
    ensures Ordered(history + [e]) && Ordered(Last(history, w))
    ensures var kept := Last(history, w);
      multiset(Last(history + [e], w)) == multiset([e] + if |kept| < w then kept else kept[1..])
  {
    var kept := Last(history, w);
    var rest := if |kept| < w then kept else kept[1..];
    assert Last(history + [e], w) == rest + [e];
  }
}
