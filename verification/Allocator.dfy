// The size-class allocator: per-thread free lists threaded through the free chunks, and the size headers of `new`.
// Memory is addressed in words of 8 bytes; sizes are in bytes.

module AllocatorState {
  const LEVELS := 3

  /** Bytes of a chunk. */
  function ChunkBytes(level: nat): nat { if level == 0 then 64 else if level == 1 then 128 else 192 }

  function BlockBytes(level: nat): nat { if level == 2 then 65536 else 16384 }

  function ChunkWords(level: nat): (w: nat)
    ensures 8 <= w <= 24
  {
    ChunkBytes(level) / 8
  }

  function BlockWords(level: nat): nat { BlockBytes(level) / 8 }

  /** Chunks carved out of one block: as many as fit. */
  function ChunksPerBlock(level: nat): (n: nat)
    ensures n > 0 && n * ChunkWords(level) <= BlockWords(level) < (n + 1) * ChunkWords(level)
  {
    BlockBytes(level) / ChunkBytes(level)
  }

  /** The size class that serves a request, the smallest that holds it; LEVELS for requests that go to `malloc`. */
  function LevelOf(n: nat): (level: nat)
    ensures level <= LEVELS && (level < LEVELS ==> n <= ChunkBytes(level))
    ensures forall l: nat :: l < level ==> ChunkBytes(l) < n
  {
    if n <= ChunkBytes(0) then 0 else if n <= ChunkBytes(1) then 1 else if n <= ChunkBytes(2) then 2 else LEVELS
  }

  function WordsOf(n: nat): nat { (n + 7) / 8 }

  /** Words that a request really gets. */
  function Room(n: nat): nat { if LevelOf(n) < LEVELS then ChunkWords(LevelOf(n)) else WordsOf(n) }

  /** Bytes that a program may use of what a request gets. */
  function Capacity(n: nat): nat { if LevelOf(n) < LEVELS then ChunkBytes(LevelOf(n)) else n }

  lemma CapacityInRoom(n: nat)
    ensures n <= Capacity(n) && WordsOf(Capacity(n)) == Room(n)
  {
  }

  lemma RequestFits(n: nat)
    ensures WordsOf(n) <= Room(n) && 0 < Room(n)
  {
  }

  /** A thread's stack for one size class. */
  datatype Stack = Stack(thread: nat, level: nat)

  datatype Place = Live | Listed(thread: nat)

  datatype Chunk = Chunk(level: nat, place: Place)

  /** A block handed out: its size, and whether its first word is the size header of `new`. */
  datatype Block = Block(size: nat, headed: bool)

  type Memory = map<int, int>

  function Load(mem: Memory, a: int): int { if a in mem then mem[a] else 0 }

  function Root(root: map<Stack, int>, k: Stack): int { if k in root then root[k] else 0 }

  function List(lists: map<Stack, seq<int>>, k: Stack): seq<int> { if k in lists then lists[k] else [] }

  /** Two ranges of words do not meet. */
  predicate Apart(a: int, n: int, b: int, m: int) { a + n <= b || b + m <= a }

  /** The chunk after the one at `i`; `end` after the last. */
  function Follower(list: seq<int>, i: nat, end: int): int { if i + 1 < |list| then list[i + 1] else end }

  /** Every chunk of the list holds the address of the next, the last one holds `end`. */
  ghost predicate Linked(mem: Memory, list: seq<int>, end: int) {
    forall i :: 0 <= i < |list| ==> Load(mem, list[i]) == Follower(list, i, end)
  }

  ghost predicate Distinct(list: seq<int>) {
    forall i, j :: 0 <= i < j < |list| ==> list[i] != list[j]
  }

  /** The stack's pointers run through exactly the chunks of `list`. */
  ghost predicate StackHolds(mem: Memory, root: map<Stack, int>, list: seq<int>, k: Stack) {
    Root(root, k) == (if list == [] then 0 else list[0]) && Linked(mem, list, 0) && Distinct(list) &&
    forall i :: 0 <= i < |list| ==> list[i] != 0
  }

  /** A chunk is on a stack's list exactly if that is its place. */
  ghost predicate ListedRight(list: seq<int>, chunks: map<int, Chunk>, k: Stack) {
    (forall i :: 0 <= i < |list| ==> list[i] in chunks && chunks[list[i]] == Chunk(k.level, Listed(k.thread))) &&
    forall a :: a in chunks && chunks[a] == Chunk(k.level, Listed(k.thread)) ==> a in list
  }

  ghost predicate Stacks(mem: Memory, root: map<Stack, int>, lists: map<Stack, seq<int>>, chunks: map<int, Chunk>) {
    forall k: Stack :: StackHolds(mem, root, List(lists, k), k) && ListedRight(List(lists, k), chunks, k)
  }

  /** Chunks and blocks from `malloc` do not overlap. */
  ghost predicate Layout(chunks: map<int, Chunk>, big: map<int, nat>) {
    (forall a :: a in chunks ==> a > 0 && chunks[a].level < LEVELS) &&
    (forall a :: a in big ==> a > 0) &&
    (forall a, b :: a in chunks && b in chunks && a != b ==>
      Apart(a, ChunkWords(chunks[a].level), b, ChunkWords(chunks[b].level))) &&
    (forall a, b :: a in chunks && b in big ==> Apart(a, ChunkWords(chunks[a].level), b, big[b])) &&
    (forall a, b :: a in big && b in big && a != b ==> Apart(a, big[a], b, big[b]))
  }

  /** Every live chunk and every block from `malloc` was handed out for a request of its size class. */
  ghost predicate HandedOut(mem: Memory, chunks: map<int, Chunk>, big: map<int, nat>, owned: map<int, Block>) {
    (forall p :: p in owned ==>
      if LevelOf(owned[p].size) < LEVELS then p in chunks && chunks[p] == Chunk(LevelOf(owned[p].size), Live)
      else p in big && big[p] == WordsOf(owned[p].size)) &&
    (forall p :: p in owned && owned[p].headed ==> owned[p].size >= 8 && Load(mem, p) == owned[p].size - 8) &&
    (forall p :: p in chunks && chunks[p].place == Live ==> p in owned && chunks[p].level == LevelOf(owned[p].size)) &&
    (forall p :: p in big ==> p in owned && LevelOf(owned[p].size) == LEVELS)
  }

  function Expansions(expansions: map<nat, nat>, level: nat): nat {
    if level in expansions then expansions[level] else 0
  }

  ghost function ChunksOf(chunks: map<int, Chunk>, level: nat): set<int> {
    set a | a in chunks && chunks[a].level == level
  }

  /** Every expansion has added one block's worth of chunks. */
  ghost predicate Counted(chunks: map<int, Chunk>, expansions: map<nat, nat>) {
    forall l: nat :: l < LEVELS ==> |ChunksOf(chunks, l)| == Expansions(expansions, l) * ChunksPerBlock(l)
  }

  /** Memory from the system lies where nothing is in use. */
  ghost predicate Unused(chunks: map<int, Chunk>, big: map<int, nat>, base: int, words: nat) {
    base > 0 && (forall a :: a in chunks ==> Apart(a, ChunkWords(chunks[a].level), base, words)) &&
    forall a :: a in big ==> Apart(a, big[a], base, words)
  }

  // ----- carving a block -----

  ghost function Carved(base: int, width: int, n: nat): (list: seq<int>)
    ensures |list| == n && forall i :: 0 <= i < n ==> list[i] == base + i * width
  {
    seq(n, i requires 0 <= i < n => base + i * width)
  }

  ghost function WithCarved(chunks: map<int, Chunk>, list: seq<int>, c: Chunk): map<int, Chunk> {
    chunks + map a | a in list :: c
  }

  /** The chunks of a new block, on a stack without chunks. */
  ghost function NewBlock(base: int, level: nat): seq<int> {
    Carved(base, ChunkWords(level), ChunksPerBlock(level))
  }

  /** The chunks there are when a stack is asked for one: an empty stack first gets a block. */
  ghost function Grown(chunks: map<int, Chunk>, lists: map<Stack, seq<int>>, k: Stack, base: int): map<int, Chunk> {
    if List(lists, k) == [] then WithCarved(chunks, NewBlock(base, k.level), Chunk(k.level, Listed(k.thread))) else chunks
  }

  ghost function GrownList(lists: map<Stack, seq<int>>, k: Stack, base: int): (list: seq<int>) {
    if List(lists, k) == [] then NewBlock(base, k.level) else List(lists, k)
  }

  ghost function GrownCount(expansions: map<nat, nat>, lists: map<Stack, seq<int>>, k: Stack): map<nat, nat> {
    if List(lists, k) == [] then expansions[k.level := Expansions(expansions, k.level) + 1] else expansions
  }

  /** No chunk is ever lost. */
  lemma GrownKeeps(chunks: map<int, Chunk>, lists: map<Stack, seq<int>>, k: Stack, base: int)
    ensures chunks.Keys <= Grown(chunks, lists, k, base).Keys
  {
  }

  lemma FirstOfBlock(base: int, level: nat)
    ensures NewBlock(base, level) != [] && NewBlock(base, level)[0] == base
  {
    assert NewBlock(base, level)[0] == base + 0 * ChunkWords(level);
  }

  /** The chunks, the lists of free ones, and how many blocks were carved for every level. */
  datatype Pool = Pool(chunks: map<int, Chunk>, lists: map<Stack, seq<int>>, expansions: map<nat, nat>)

  /** Serving a request from a stack takes its top chunk; no chunk is lost, and only an empty stack gets a new block. */
  ghost predicate Served(p: Pool, q: Pool, k: Stack, base: int, item: int) {
    var list := GrownList(p.lists, k, base);
    list != [] && item == list[0] && q.lists == p.lists[k := list[1..]] &&
    item in Grown(p.chunks, p.lists, k, base) &&
    q.chunks == Grown(p.chunks, p.lists, k, base)[item := Chunk(k.level, Live)] &&
    q.expansions == GrownCount(p.expansions, p.lists, k)
  }

  /** A chunk is put on top of a stack. */
  ghost predicate TakenBack(p: Pool, q: Pool, k: Stack, ptr: int) {
    ptr in p.chunks && q.chunks == p.chunks[ptr := Chunk(k.level, Listed(k.thread))] &&
    q.lists == p.lists[k := [ptr] + List(p.lists, k)] && q.expansions == p.expansions
  }

  /** What a request of thread `t` for `n` bytes makes of the pool, and what giving back a block of that size does. */
  ghost predicate Requested(p: Pool, q: Pool, t: nat, n: nat, base: int, item: int) {
    if LevelOf(n) < LEVELS then Served(p, q, Stack(t, LevelOf(n)), base, item) else q == p
  }

  ghost predicate GivenBack(p: Pool, q: Pool, t: nat, n: nat, ptr: int) {
    if LevelOf(n) < LEVELS then TakenBack(p, q, Stack(t, LevelOf(n)), ptr) else q == p
  }

  lemma RequestKeeps(p: Pool, q: Pool, t: nat, n: nat, base: int, item: int)
    requires Requested(p, q, t, n, base, item)
    ensures p.chunks.Keys <= q.chunks.Keys
  {
    if LevelOf(n) < LEVELS { GrownKeeps(p.chunks, p.lists, Stack(t, LevelOf(n)), base); }
  }

  lemma CarvedApart(base: int, width: int, n: nat, i: nat, j: nat)
    requires i < j < n && width > 0
    ensures base + i * width + width <= base + j * width && base + j * width + width <= base + n * width
  {
    assert (i + 1) * width <= j * width && (j + 1) * width <= n * width;
  }

  lemma CarvedInside(base: int, level: nat, i: nat)
    requires i < ChunksPerBlock(level)
    ensures var w := ChunkWords(level); base <= base + i * w && base + i * w + w <= base + BlockWords(level)
  {
    var w, n := ChunkWords(level), ChunksPerBlock(level);
    assert 0 <= i * w && (i + 1) * w <= n * w;
  }

  /** The chunks of a block lie inside it and do not overlap. */
  lemma CarvedBlock(base: int, level: nat)
    ensures var w := ChunkWords(level);
      var list := Carved(base, w, ChunksPerBlock(level));
      (forall a :: a in list ==> base <= a && a + w <= base + BlockWords(level)) &&
      forall a, b :: a in list && b in list && a != b ==> Apart(a, w, b, w)
  {
    var w, n := ChunkWords(level), ChunksPerBlock(level);
    var list := Carved(base, w, n);
    forall i | 0 <= i < n
      ensures base <= list[i] && list[i] + w <= base + BlockWords(level)
    {
      CarvedInside(base, level, i);
    }
    forall a, b | a in list && b in list && a != b
      ensures Apart(a, w, b, w)
    {
      var i, j :| 0 <= i < n && 0 <= j < n && list[i] == a && list[j] == b;
      if i < j { CarvedApart(base, w, n, i, j); } else { CarvedApart(base, w, n, j, i); }
    }
  }

  lemma CarveLayout(chunks: map<int, Chunk>, big: map<int, nat>, base: int, level: nat, c: Chunk)
    requires Layout(chunks, big) && level < LEVELS && Unused(chunks, big, base, BlockWords(level)) && c.level == level
    ensures Layout(WithCarved(chunks, Carved(base, ChunkWords(level), ChunksPerBlock(level)), c), big)
  {
    hide Carved, ChunkWords, BlockWords, ChunksPerBlock;
    CarvedBlock(base, level);
    var list := Carved(base, ChunkWords(level), ChunksPerBlock(level));
  }

  /** The chunks of a new block are new, and their first words belong to nothing else. */
  lemma NewChunks(chunks: map<int, Chunk>, big: map<int, nat>, base: int, level: nat)
    requires Layout(chunks, big) && Unused(chunks, big, base, BlockWords(level))
    ensures var carved := Carved(base, ChunkWords(level), ChunksPerBlock(level));
      carved != [] && carved[0] == base && |carved| == ChunksPerBlock(level) && Distinct(carved) &&
      forall a :: a in carved ==> a > 0 && a !in chunks && Alone(chunks, big, a)
  {
    hide Layout, BlockWords;
    var w, n := ChunkWords(level), ChunksPerBlock(level);
    CarvedBlock(base, level);
    CarvedDistinct(base, w, n);
    assert Carved(base, w, n)[0] == base + 0 * w;
    hide ChunkWords, ChunksPerBlock, Carved;
  }

  /** The word belongs to no live chunk and to no block from `malloc`. */
  ghost predicate Alone(chunks: map<int, Chunk>, big: map<int, nat>, a: int) {
    (forall b :: b in big ==> Apart(a, 1, b, big[b])) &&
    forall b :: b in chunks && chunks[b].place == Live ==> Apart(a, 1, b, ChunkWords(chunks[b].level))
  }

  lemma {:induction false} DistinctCount(list: seq<int>)
    requires Distinct(list)
    ensures |set a | a in list| == |list|
  {
    if list == [] {
      assert (set a | a in list) == {};
    } else {
      var n := |list| - 1;
      DistinctCount(list[..n]);
      assert (set a | a in list) == (set a | a in list[..n]) + {list[n]};
    }
  }

  lemma CarvedDistinct(base: int, width: int, n: nat)
    requires width > 0
    ensures Distinct(Carved(base, width, n))
  {
    forall i, j | 0 <= i < j < n
      ensures base + i * width != base + j * width
    {
      CarvedApart(base, width, n, i, j);
    }
  }

  lemma ChunksOfCarved(chunks: map<int, Chunk>, list: seq<int>, c: Chunk, level: nat)
    requires Distinct(list) && forall a :: a in list ==> a !in chunks
    ensures |ChunksOf(WithCarved(chunks, list, c), level)| ==
      |ChunksOf(chunks, level)| + if level == c.level then |list| else 0
  {
    DistinctCount(list);
    ChunksOfUnion(chunks, list, c, level);
  }

  lemma ChunksOfUnion(chunks: map<int, Chunk>, list: seq<int>, c: Chunk, level: nat)
    requires forall a :: a in list ==> a !in chunks
    ensures var added := set a | a in list;
      ChunksOf(WithCarved(chunks, list, c), level) == ChunksOf(chunks, level) + (if level == c.level then added else {}) &&
      ChunksOf(chunks, level) !! added
  {
    var added := set a | a in list;
    var all := WithCarved(chunks, list, c);
    assert forall a :: a in all <==> a in chunks || a in list;
    forall a | a in all
      ensures a in ChunksOf(all, level) <==> a in ChunksOf(chunks, level) || (level == c.level && a in added)
    {
      assert all[a] == if a in list then c else chunks[a];
    }
    forall a | a in added
      ensures a !in ChunksOf(chunks, level)
    {
      assert a in list;
    }
  }

  /** Carving a block keeps the count of the chunks of every level. */
  lemma CarveCounted(chunks: map<int, Chunk>, expansions: map<nat, nat>, list: seq<int>, c: Chunk)
    requires Counted(chunks, expansions) && |list| == ChunksPerBlock(c.level)
    requires Distinct(list) && forall a :: a in list ==> a !in chunks
    ensures Counted(WithCarved(chunks, list, c), expansions[c.level := Expansions(expansions, c.level) + 1])
  {
    hide ChunksPerBlock, ChunksOf, WithCarved;
    forall l: nat | l < LEVELS
      ensures |ChunksOf(WithCarved(chunks, list, c), l)| ==
        Expansions(expansions[c.level := Expansions(expansions, c.level) + 1], l) * ChunksPerBlock(l)
    {
      ChunksOfCarved(chunks, list, c, l);
      var e, n := Expansions(expansions, l), ChunksPerBlock(l);
      assert (e + 1) * n == e * n + n;
    }
  }

  /** The stack that gets a block of chunks, linked to one another and on to the old list. */
  lemma CarveStack(mem: Memory, after: Memory, root: map<Stack, int>, carved: seq<int>, list: seq<int>, k: Stack)
    requires StackHolds(mem, root, list, k) && carved != [] && Distinct(carved)
    requires forall a :: a in list ==> a !in carved && Load(after, a) == Load(mem, a)
    requires forall i :: 0 <= i < |carved| ==> carved[i] != 0
    requires Linked(after, carved, Root(root, k))
    ensures StackHolds(after, root[k := carved[0]], carved + list, k)
  {
    var all := carved + list;
    forall i | 0 <= i < |all|
      ensures all[i] != 0 && Load(after, all[i]) == Follower(all, i, 0)
    {
      if i >= |carved| {
        var j := i - |carved|;
        assert all[i] == list[j] && list[j] in list;
        assert Load(mem, list[j]) == Follower(list, j, 0) == Follower(all, i, 0);
      } else {
        assert all[i] == carved[i] && Load(after, carved[i]) == Follower(carved, i, Root(root, k));
      }
    }
    forall i, j | 0 <= i < j < |all|
      ensures all[i] != all[j]
    {
      assert i < |carved| ==> all[i] in carved;
      assert j >= |carved| ==> all[j] in list;
    }
    assert Linked(after, all, 0) && Distinct(all);
  }

  /** A change at one stack leaves the other stacks in order. */
  lemma StacksChange(mem: Memory, mem1: Memory, root: map<Stack, int>, root1: map<Stack, int>,
                     lists: map<Stack, seq<int>>, lists1: map<Stack, seq<int>>,
                     chunks: map<int, Chunk>, chunks1: map<int, Chunk>, k0: Stack)
    requires Stacks(mem, root, lists, chunks)
    requires StackHolds(mem1, root1, List(lists1, k0), k0) && ListedRight(List(lists1, k0), chunks1, k0)
    requires forall k: Stack :: k != k0 ==> Root(root1, k) == Root(root, k) && List(lists1, k) == List(lists, k)
    requires forall a :: a in chunks && OnOther(chunks[a], k0) ==>
      a in chunks1 && chunks1[a] == chunks[a] && Load(mem1, a) == Load(mem, a)
    requires forall a :: a in chunks1 && OnOther(chunks1[a], k0) ==> a in chunks && chunks[a] == chunks1[a]
    ensures Stacks(mem1, root1, lists1, chunks1)
  {
    hide Load, Root, List;
    forall k: Stack | k != k0
      ensures StackHolds(mem1, root1, List(lists1, k), k) && ListedRight(List(lists1, k), chunks1, k)
    {
      var list := List(lists, k);
      assert StackHolds(mem, root, list, k) && ListedRight(list, chunks, k);
      assert forall i :: 0 <= i < |list| ==> OnOther(chunks[list[i]], k0);
    }
  }

  /** The chunk is free, on another stack's list. */
  predicate OnOther(c: Chunk, k0: Stack) { c.place.Listed? && Stack(c.place.thread, c.level) != k0 }

  /** No word of a block in use differs. */
  ghost predicate SameData(mem: Memory, mem1: Memory, owned: map<int, Block>) {
    forall p, a :: p in owned && p <= a < p + Room(owned[p].size) ==> Load(mem1, a) == Load(mem, a)
  }

  /** A word that belongs to no block in use can be written without touching their data. */
  lemma OutsideData(mem: Memory, mem1: Memory, chunks: map<int, Chunk>, big: map<int, nat>, owned: map<int, Block>,
                    written: set<int>)
    requires Layout(chunks, big) && HandedOut(mem, chunks, big, owned)
    requires forall a :: a !in written ==> Load(mem1, a) == Load(mem, a)
    requires forall a :: a in written ==> Alone(chunks, big, a)
    ensures SameData(mem, mem1, owned)
  {
    hide Load, ChunkWords;
    forall p, a | p in owned && p <= a < p + Room(owned[p].size)
      ensures a !in written
    {
      if LevelOf(owned[p].size) < LEVELS { assert p in chunks; } else { assert p in big; }
    }
  }

  lemma ExpandStacks(mem: Memory, mem1: Memory, root: map<Stack, int>, lists: map<Stack, seq<int>>,
                     chunks: map<int, Chunk>, k: Stack, carved: seq<int>)
    requires Stacks(mem, root, lists, chunks) && carved != [] && Distinct(carved)
    requires forall a :: a in carved ==> a > 0 && a !in chunks
    requires Linked(mem1, carved, Root(root, k)) && forall a :: a !in carved ==> Load(mem1, a) == Load(mem, a)
    ensures Stacks(mem1, root[k := carved[0]], lists[k := carved + List(lists, k)],
      WithCarved(chunks, carved, Chunk(k.level, Listed(k.thread))))
  {
    hide Load, Linked, StackHolds, ListedRight, Stacks;
    var list, chunks1 := List(lists, k), WithCarved(chunks, carved, Chunk(k.level, Listed(k.thread)));
    assert StackHolds(mem, root, list, k) && ListedRight(list, chunks, k) by { AtStack(mem, root, lists, chunks, k); }
    ListInChunks(list, chunks, k);
    assert forall i :: 0 <= i < |carved| ==> carved[i] in carved;
    CarveStack(mem, mem1, root, carved, list, k);
    CarveListed(chunks, carved, list, k);
    StacksChange(mem, mem1, root, root[k := carved[0]], lists, lists[k := carved + list], chunks, chunks1, k);
  }

  lemma AtStack(mem: Memory, root: map<Stack, int>, lists: map<Stack, seq<int>>, chunks: map<int, Chunk>, k: Stack)
    requires Stacks(mem, root, lists, chunks)
    ensures StackHolds(mem, root, List(lists, k), k) && ListedRight(List(lists, k), chunks, k)
  {
  }

  lemma ListInChunks(list: seq<int>, chunks: map<int, Chunk>, k: Stack)
    requires ListedRight(list, chunks, k)
    ensures forall a :: a in list ==> a in chunks && chunks[a] == Chunk(k.level, Listed(k.thread))
  {
  }

  /** Taking the top chunk off a stack. */
  lemma TakeStacks(mem: Memory, root: map<Stack, int>, lists: map<Stack, seq<int>>, chunks: map<int, Chunk>, k: Stack)
    requires Stacks(mem, root, lists, chunks) && List(lists, k) != []
    ensures var list := List(lists, k);
      var p := list[0];
      p in chunks && chunks[p] == Chunk(k.level, Listed(k.thread)) && Root(root, k) == p &&
      Stacks(mem[p := 0], root[k := Load(mem, p)], lists[k := list[1..]], chunks[p := Chunk(k.level, Live)])
  {
    hide StackHolds, ListedRight, Stacks;
    var list := List(lists, k);
    var p := list[0];
    AtStack(mem, root, lists, chunks, k);
    ListInChunks(list, chunks, k);
    TakeHolds(mem, root, list, k);
    TakeListed(mem, root, list, chunks, k);
    StacksChange(mem, mem[p := 0], root, root[k := Load(mem, p)], lists, lists[k := list[1..]], chunks,
      chunks[p := Chunk(k.level, Live)], k);
  }

  lemma TakeHolds(mem: Memory, root: map<Stack, int>, list: seq<int>, k: Stack)
    requires StackHolds(mem, root, list, k) && list != []
    ensures Root(root, k) == list[0]
    ensures StackHolds(mem[list[0] := 0], root[k := Load(mem, list[0])], list[1..], k)
  {
    var rest, mem1 := list[1..], mem[list[0] := 0];
    assert Load(mem, list[0]) == Follower(list, 0, 0);
    forall i | 0 <= i < |rest|
      ensures rest[i] != 0 && Load(mem1, rest[i]) == Follower(rest, i, 0)
    {
      assert rest[i] == list[i + 1] && Load(mem, list[i + 1]) == Follower(list, i + 1, 0);
    }
  }

  lemma TakeListed(mem: Memory, root: map<Stack, int>, list: seq<int>, chunks: map<int, Chunk>, k: Stack)
    requires StackHolds(mem, root, list, k) && ListedRight(list, chunks, k) && list != []
    ensures ListedRight(list[1..], chunks[list[0] := Chunk(k.level, Live)], k)
  {
    var rest, chunks1 := list[1..], chunks[list[0] := Chunk(k.level, Live)];
    assert forall i :: 0 <= i < |rest| ==> rest[i] == list[i + 1] != list[0];
    forall a | a in chunks1 && chunks1[a] == Chunk(k.level, Listed(k.thread))
      ensures a in rest
    {
      assert a in list;
    }
  }

  /** Putting a live chunk on top of a stack. */
  lemma PutStacks(mem: Memory, root: map<Stack, int>, lists: map<Stack, seq<int>>, chunks: map<int, Chunk>, k: Stack, p: int)
    requires Stacks(mem, root, lists, chunks) && p != 0 && p in chunks && chunks[p] == Chunk(k.level, Live)
    ensures var list := List(lists, k);
      Stacks(mem[p := Root(root, k)], root[k := p], lists[k := [p] + list], chunks[p := Chunk(k.level, Listed(k.thread))])
  {
    hide StackHolds, ListedRight, Stacks;
    var list := List(lists, k);
    AtStack(mem, root, lists, chunks, k);
    ListInChunks(list, chunks, k);
    PutHolds(mem, root, list, k, p);
    PutListed(list, chunks, k, p);
    StacksChange(mem, mem[p := Root(root, k)], root, root[k := p], lists, lists[k := [p] + list], chunks,
      chunks[p := Chunk(k.level, Listed(k.thread))], k);
  }

  lemma PutHolds(mem: Memory, root: map<Stack, int>, list: seq<int>, k: Stack, p: int)
    requires StackHolds(mem, root, list, k) && p !in list && p != 0
    ensures StackHolds(mem[p := Root(root, k)], root[k := p], [p] + list, k)
  {
    var all, mem1 := [p] + list, mem[p := Root(root, k)];
    forall i | 0 <= i < |all|
      ensures all[i] != 0 && Load(mem1, all[i]) == Follower(all, i, 0)
    {
      if i > 0 { assert all[i] == list[i - 1] && Load(mem, list[i - 1]) == Follower(list, i - 1, 0); }
    }
  }

  lemma PutListed(list: seq<int>, chunks: map<int, Chunk>, k: Stack, p: int)
    requires ListedRight(list, chunks, k) && p in chunks
    ensures ListedRight([p] + list, chunks[p := Chunk(k.level, Listed(k.thread))], k)
  {
    assert forall a :: a in list ==> a in [p] + list;
    assert ([p] + list)[0] == p;
  }

  /** Carving a block, linked on top of the stack `k`, keeps everything in order. */
  lemma ExpandKeeps(mem: Memory, mem1: Memory, root: map<Stack, int>, lists: map<Stack, seq<int>>,
                    chunks: map<int, Chunk>, big: map<int, nat>, owned: map<int, Block>, k: Stack, base: int)
    requires Stacks(mem, root, lists, chunks) && Layout(chunks, big) && HandedOut(mem, chunks, big, owned)
    requires k.level < LEVELS && Unused(chunks, big, base, BlockWords(k.level))
    requires var carved := Carved(base, ChunkWords(k.level), ChunksPerBlock(k.level));
      Linked(mem1, carved, Root(root, k)) && forall a :: a !in carved ==> Load(mem1, a) == Load(mem, a)
    ensures var carved := Carved(base, ChunkWords(k.level), ChunksPerBlock(k.level));
      var chunks1 := WithCarved(chunks, carved, Chunk(k.level, Listed(k.thread)));
      Stacks(mem1, root[k := base], lists[k := carved + List(lists, k)], chunks1) && Layout(chunks1, big) &&
      HandedOut(mem1, chunks1, big, owned) && SameData(mem, mem1, owned)
  {
    hide Stacks, Layout, HandedOut, SameData, Linked, Unused, Carved, ChunkWords, BlockWords, ChunksPerBlock, Load, Alone;
    var carved := Carved(base, ChunkWords(k.level), ChunksPerBlock(k.level));
    var c := Chunk(k.level, Listed(k.thread));
    NewChunks(chunks, big, base, k.level);
    CarveLayout(chunks, big, base, k.level, c);
    OutsideData(mem, mem1, chunks, big, owned, set a | a in carved);
    HeadersKept(mem, mem1, chunks, WithCarved(chunks, carved, c), big, owned);
    ExpandStacks(mem, mem1, root, lists, chunks, k, carved);
  }

  /** Blocks in use are still in order if their chunks and their data are the same. */
  lemma HeadersKept(mem: Memory, mem1: Memory, chunks: map<int, Chunk>, chunks1: map<int, Chunk>, big: map<int, nat>,
                    owned: map<int, Block>)
    requires HandedOut(mem, chunks, big, owned) && SameData(mem, mem1, owned)
    requires forall a :: a in chunks && chunks[a].place == Live ==> a in chunks1 && chunks1[a] == chunks[a]
    requires forall a :: a in chunks1 && chunks1[a].place == Live ==> a in chunks && chunks[a] == chunks1[a]
    ensures HandedOut(mem1, chunks1, big, owned)
  {
    hide Load, Room, LevelOf;
    forall p | p in owned && owned[p].headed
      ensures Load(mem1, p) == Load(mem, p)
    {
      RequestFits(owned[p].size);
    }
  }

  lemma CarveListed(chunks: map<int, Chunk>, carved: seq<int>, list: seq<int>, k: Stack)
    requires ListedRight(list, chunks, k) && forall a :: a in carved ==> a !in chunks
    ensures ListedRight(carved + list, WithCarved(chunks, carved, Chunk(k.level, Listed(k.thread))), k)
  {
    var all, chunks1 := carved + list, WithCarved(chunks, carved, Chunk(k.level, Listed(k.thread)));
    forall i | 0 <= i < |all|
      ensures all[i] in chunks1 && chunks1[all[i]] == Chunk(k.level, Listed(k.thread))
    {
      if i < |carved| { assert all[i] in carved; } else { assert all[i] == list[i - |carved|]; }
    }
  }

  // ----- moving chunks between their places -----

  /** Where a chunk is makes no difference to the layout or to the counts. */
  lemma Moved(chunks: map<int, Chunk>, big: map<int, nat>, expansions: map<nat, nat>, p: int, place: Place)
    requires p in chunks && Layout(chunks, big) && Counted(chunks, expansions)
    ensures var chunks1 := chunks[p := Chunk(chunks[p].level, place)];
      Layout(chunks1, big) && Counted(chunks1, expansions)
  {
    hide ChunkWords, ChunksPerBlock;
    var chunks1 := chunks[p := Chunk(chunks[p].level, place)];
    assert forall l: nat :: ChunksOf(chunks1, l) == ChunksOf(chunks, l);
  }

  lemma FreeChunkAlone(mem: Memory, chunks: map<int, Chunk>, big: map<int, nat>, owned: map<int, Block>, p: int)
    requires Layout(chunks, big) && HandedOut(mem, chunks, big, owned) && p in chunks && chunks[p].place.Listed?
    ensures p !in owned && Alone(chunks, big, p)
  {
    hide ChunkWords;
  }

  /** Handing out a free chunk. */
  lemma TakeKeeps(mem: Memory, chunks: map<int, Chunk>, big: map<int, nat>, owned: map<int, Block>, p: int, size: nat)
    requires Layout(chunks, big) && HandedOut(mem, chunks, big, owned) && p in chunks && chunks[p].place.Listed?
    requires chunks[p].level == LevelOf(size) < LEVELS
    ensures p !in owned && SameData(mem, mem[p := 0], owned)
    ensures HandedOut(mem[p := 0], chunks[p := Chunk(chunks[p].level, Live)], big, owned[p := Block(size, false)])
  {
    hide ChunkWords, Layout;
    FreeChunkAlone(mem, chunks, big, owned, p);
    OutsideData(mem, mem[p := 0], chunks, big, owned, {p});
  }

  /** Taking back a chunk that is in use. */
  lemma PutKeeps(mem: Memory, chunks: map<int, Chunk>, big: map<int, nat>, owned: map<int, Block>, p: int, t: nat, link: int)
    requires Layout(chunks, big) && HandedOut(mem, chunks, big, owned) && p in owned && LevelOf(owned[p].size) < LEVELS
    ensures p in chunks && chunks[p] == Chunk(LevelOf(owned[p].size), Live) && p > 0
    ensures SameData(mem, mem[p := link], owned - {p})
    ensures HandedOut(mem[p := link], chunks[p := Chunk(chunks[p].level, Listed(t))], big, owned - {p})
  {
    hide ChunkWords;
    var mem1, rest := mem[p := link], owned - {p};
    forall q, a | q in rest && q <= a < q + Room(rest[q].size)
      ensures Load(mem1, a) == Load(mem, a)
    {
      if LevelOf(owned[q].size) < LEVELS {
        assert Apart(q, ChunkWords(chunks[q].level), p, ChunkWords(chunks[p].level));
      } else {
        assert Apart(p, ChunkWords(chunks[p].level), q, big[q]);
      }
    }
    forall q | q in rest
      ensures Load(mem1, q) == Load(mem, q)
    {
    }
  }

  lemma Filled(mem: Memory, root: map<Stack, int>, lists: map<Stack, seq<int>>, chunks: map<int, Chunk>, k: Stack)
    requires Stacks(mem, root, lists, chunks)
    ensures Root(root, k) == if List(lists, k) == [] then 0 else List(lists, k)[0]
    ensures Root(root, k) == 0 <==> List(lists, k) == []
    ensures List(lists, k) != [] ==> List(lists, k)[0] in chunks
  {
    assert StackHolds(mem, root, List(lists, k), k) && ListedRight(List(lists, k), chunks, k);
  }

  lemma SameDataItself(a: Memory, owned: map<int, Block>)
    ensures SameData(a, a, owned)
  {
  }

  lemma FewerBlocks(a: Memory, b: Memory, fewer: map<int, Block>, owned: map<int, Block>)
    requires SameData(a, b, owned) && forall p :: p in fewer ==> p in owned && owned[p] == fewer[p]
    ensures SameData(a, b, fewer)
  {
    hide Load, Room;
  }

  lemma SameDataThrough(a: Memory, b: Memory, c: Memory, owned: map<int, Block>)
    requires SameData(a, b, owned) && SameData(b, c, owned)
    ensures SameData(a, c, owned)
  {
    hide Load, Room;
  }

  /** A block from `malloc`. */
  lemma BigKeeps(mem: Memory, chunks: map<int, Chunk>, big: map<int, nat>, owned: map<int, Block>, base: int, n: nat)
    requires Layout(chunks, big) && HandedOut(mem, chunks, big, owned) && Unused(chunks, big, base, WordsOf(n))
    requires LevelOf(n) == LEVELS
    ensures base !in owned && Layout(chunks, big[base := WordsOf(n)]) && SameData(mem, mem, owned)
    ensures HandedOut(mem, chunks, big[base := WordsOf(n)], owned[base := Block(n, false)])
  {
    hide Layout, HandedOut, Unused, SameData;
    SameDataItself(mem, owned);
    BigIsNew(mem, chunks, big, owned, base, WordsOf(n));
    BigLayout(chunks, big, base, WordsOf(n));
    BigHandedOut(mem, chunks, big, owned, base, n);
  }

  lemma BigIsNew(mem: Memory, chunks: map<int, Chunk>, big: map<int, nat>, owned: map<int, Block>, base: int, words: nat)
    requires HandedOut(mem, chunks, big, owned) && Unused(chunks, big, base, words) && 0 < words
    requires Layout(chunks, big)
    ensures base !in owned && base !in chunks && base !in big
  {
    hide Load;
    forall p | p in owned
      ensures p != base
    {
      RoomOf(mem, chunks, big, owned, p);
      RequestFits(owned[p].size);
    }
  }

  lemma BigLayout(chunks: map<int, Chunk>, big: map<int, nat>, base: int, words: nat)
    requires Layout(chunks, big) && Unused(chunks, big, base, words)
    ensures Layout(chunks, big[base := words])
  {
    hide ChunkWords;
  }

  lemma BigHandedOut(mem: Memory, chunks: map<int, Chunk>, big: map<int, nat>, owned: map<int, Block>, base: int, n: nat)
    requires HandedOut(mem, chunks, big, owned) && LevelOf(n) == LEVELS && base !in owned && base !in chunks && base !in big
    ensures HandedOut(mem, chunks, big[base := WordsOf(n)], owned[base := Block(n, false)])
  {
    hide Load, LevelOf, WordsOf;
  }

  lemma OwnedChunk(mem: Memory, chunks: map<int, Chunk>, big: map<int, nat>, owned: map<int, Block>, p: int)
    requires HandedOut(mem, chunks, big, owned) && p in owned && LevelOf(owned[p].size) < LEVELS
    ensures p in chunks && chunks[p] == Chunk(LevelOf(owned[p].size), Live)
  {
  }

  lemma FreeKeeps(mem: Memory, chunks: map<int, Chunk>, big: map<int, nat>, owned: map<int, Block>, p: int)
    requires Layout(chunks, big) && HandedOut(mem, chunks, big, owned) && p in owned && LevelOf(owned[p].size) == LEVELS
    ensures Layout(chunks, big - {p}) && HandedOut(mem, chunks, big - {p}, owned - {p}) && SameData(mem, mem, owned - {p})
  {
    hide ChunkWords, Load;
  }

  // ----- words inside blocks -----

  /** The word is no free chunk's link and belongs to no other block. */
  lemma InsideBlock(mem: Memory, chunks: map<int, Chunk>, big: map<int, nat>, owned: map<int, Block>, p: int, i: nat)
    requires Layout(chunks, big) && HandedOut(mem, chunks, big, owned) && p in owned && i < Room(owned[p].size)
    ensures p > 0
    ensures forall a :: a in chunks && chunks[a].place.Listed? ==> a != p + i
    ensures forall q :: q in owned && q != p ==> !(q <= p + i < q + Room(owned[q].size))
  {
    hide ChunkWords, Load;
    forall a | a in chunks && chunks[a].place.Listed?
      ensures a != p + i
    {
      if LevelOf(owned[p].size) < LEVELS {
        assert Apart(a, ChunkWords(chunks[a].level), p, ChunkWords(chunks[p].level));
      } else {
        assert Apart(a, ChunkWords(chunks[a].level), p, big[p]);
      }
    }
    forall q | q in owned && q != p
      ensures Apart(q, Room(owned[q].size), p, Room(owned[p].size))
    {
      RoomOf(mem, chunks, big, owned, q);
      RoomOf(mem, chunks, big, owned, p);
    }
  }

  lemma RoomOf(mem: Memory, chunks: map<int, Chunk>, big: map<int, nat>, owned: map<int, Block>, p: int)
    requires HandedOut(mem, chunks, big, owned) && p in owned
    ensures if LevelOf(owned[p].size) < LEVELS then p in chunks && Room(owned[p].size) == ChunkWords(chunks[p].level)
      else p in big && Room(owned[p].size) == big[p]
  {
  }

  /** Writing a word of a block, other than its header, disturbs nothing. */
  lemma StoreKeeps(mem: Memory, root: map<Stack, int>, lists: map<Stack, seq<int>>, chunks: map<int, Chunk>,
                   big: map<int, nat>, owned: map<int, Block>, p: int, i: nat, v: int)
    requires Stacks(mem, root, lists, chunks) && Layout(chunks, big) && HandedOut(mem, chunks, big, owned)
    requires p in owned && i < Room(owned[p].size) && (owned[p].headed ==> i > 0)
    ensures var mem1 := mem[p + i := v];
      Stacks(mem1, root, lists, chunks) && HandedOut(mem1, chunks, big, owned) && SameData(mem, mem1, owned - {p})
  {
    hide ChunkWords, Layout, LevelOf, ChunkBytes;
    var mem1 := mem[p + i := v];
    InsideBlock(mem, chunks, big, owned, p, i);
    forall k: Stack
      ensures StackHolds(mem1, root, List(lists, k), k) && ListedRight(List(lists, k), chunks, k)
    {
      AtStack(mem, root, lists, chunks, k);
      ListInChunks(List(lists, k), chunks, k);
      LinksKept(mem, mem1, root, List(lists, k), k);
    }
    forall q | q in owned && owned[q].headed
      ensures Load(mem1, q) == Load(mem, q)
    {
      RequestFits(owned[q].size);
    }
  }

  /** A block becomes one of `new` when its first word holds its size. */
  lemma HeaderSet(mem: Memory, chunks: map<int, Chunk>, big: map<int, nat>, owned: map<int, Block>, p: int, nbytes: nat)
    requires HandedOut(mem, chunks, big, owned) && p in owned && owned[p] == Block(nbytes + 8, false)
    requires Load(mem, p) == nbytes
    ensures HandedOut(mem, chunks, big, owned[p := Block(nbytes + 8, true)])
  {
    hide Load, LevelOf;
  }

  lemma HeaderHolds(mem: Memory, chunks: map<int, Chunk>, big: map<int, nat>, owned: map<int, Block>, p: int)
    requires HandedOut(mem, chunks, big, owned) && p in owned && owned[p].headed
    ensures owned[p].size >= 8 && Load(mem, p) == owned[p].size - 8
  {
  }

  /** Word `i` of the block at `p`. */
  function Word(mem: Memory, p: int, i: nat): int { Load(mem, p + i) }

  lemma WordKept(mem: Memory, mem1: Memory, owned: map<int, Block>, p: int, n: nat)
    requires SameData(mem, mem1, owned) && p in owned && n <= Room(owned[p].size)
    ensures forall i :: 0 <= i < n ==> Word(mem1, p, i) == Word(mem, p, i)
  {
    hide Load, Room;
  }

  lemma LinksKept(mem: Memory, mem1: Memory, root: map<Stack, int>, list: seq<int>, k: Stack)
    requires StackHolds(mem, root, list, k) && forall a :: a in list ==> Load(mem1, a) == Load(mem, a)
    ensures StackHolds(mem1, root, list, k)
  {
    hide Load;
    assert forall i :: 0 <= i < |list| ==> list[i] in list;
  }

  // ----- bytes -----

  /** Byte `j` of a word; the low byte comes first. */
  function ByteOf(w: int, j: nat): int
    decreases j
  {
    if j == 0 then w % 256 else ByteOf(w / 256, j - 1)
  }

  /** The byte at byte address `b`. */
  function ByteAt(mem: Memory, b: int): int { ByteOf(Load(mem, b / 8), b % 8) }

  /** Byte `b` of the block at `p`. */
  function Byte(mem: Memory, p: int, b: nat): int { ByteAt(mem, 8 * p + b) }

  /** Word `w` with its first `k` bytes replaced by those of `v`. */
  function Merge(w: int, v: int, k: nat): int
    decreases k
  {
    if k == 0 then w else 256 * Merge(w / 256, v / 256, k - 1) + v % 256
  }

  lemma {:induction false} MergedByte(w: int, v: int, k: nat, j: nat)
    ensures ByteOf(Merge(w, v, k), j) == ByteOf(if j < k then v else w, j)
    decreases k
  {
    if k > 0 {
      assert Merge(w, v, k) / 256 == Merge(w / 256, v / 256, k - 1) && Merge(w, v, k) % 256 == v % 256;
      if j > 0 { MergedByte(w / 256, v / 256, k - 1, j - 1); }
    }
  }

  /** What `memcpy` of `n` bytes leaves in the word at `a`; only the last word can be copied in part. */
  function CopiedWord(mem: Memory, to: int, from: int, n: nat, a: int): int {
    if !(to <= a < to + WordsOf(n)) then Load(mem, a)
    else if 8 * (a - to) + 8 <= n then Load(mem, from + a - to)
    else Merge(Load(mem, a), Load(mem, from + a - to), n - 8 * (a - to))
  }

  function CopyBytes(mem: Memory, to: int, from: int, n: nat): (mem1: Memory)
    ensures forall a :: Load(mem1, a) == CopiedWord(mem, to, from, n, a)
  {
    mem + map a | to <= a < to + WordsOf(n) :: CopiedWord(mem, to, from, n, a)
  }

  /** Byte for byte, exactly the `n` bytes from `to` on are replaced. */
  lemma CopiedByte(mem: Memory, to: int, from: int, n: nat, b: int)
    ensures ByteAt(CopyBytes(mem, to, from, n), b) ==
      if 8 * to <= b < 8 * to + n then ByteAt(mem, b - 8 * to + 8 * from) else ByteAt(mem, b)
  {
    hide CopyBytes, Merge, ByteOf, Load;
    var a, j := b / 8, b % 8;
    assert (b - 8 * to + 8 * from) / 8 == from + a - to && (b - 8 * to + 8 * from) % 8 == j;
    if to <= a < to + WordsOf(n) && n < 8 * (a - to) + 8 {
      MergedByte(Load(mem, a), Load(mem, from + a - to), n - 8 * (a - to), j);
    }
  }

  /** No byte outside of the `m` bytes at `to` changes. */
  ghost predicate OnlyInside(mem: Memory, mem1: Memory, to: int, m: nat) {
    forall b :: !(8 * to <= b < 8 * to + m) ==> ByteAt(mem1, b) == ByteAt(mem, b)
  }

  /**
   * Whatever memory holds, moving `oldn` bytes into what a request for `newn` bytes gets changes nothing outside of it,
   * exactly if they fit.
   */
  lemma CopyStaysInside(to: int, from: int, oldn: nat, newn: nat)
    requires to != from
    ensures (forall mem: Memory :: OnlyInside(mem, CopyBytes(mem, to, from, oldn), to, Capacity(newn))) <==>
      oldn <= Capacity(newn)
  {
    hide CopyBytes, ByteAt;
    forall mem: Memory | oldn <= Capacity(newn)
      ensures OnlyInside(mem, CopyBytes(mem, to, from, oldn), to, Capacity(newn))
    {
      forall b | !(8 * to <= b < 8 * to + Capacity(newn))
        ensures ByteAt(CopyBytes(mem, to, from, oldn), b) == ByteAt(mem, b)
      {
        CopiedByte(mem, to, from, oldn, b);
      }
    }
    if Capacity(newn) < oldn {
      var mem, b := map[from + Capacity(newn) / 8 := -1], 8 * to + Capacity(newn);
      CopiedByte(mem, to, from, oldn, b);
      OddByte(mem, to, from, Capacity(newn));
      assert !OnlyInside(mem, CopyBytes(mem, to, from, oldn), to, Capacity(newn));
    }
  }

  lemma OddByte(mem: Memory, to: int, from: int, c: nat)
    requires mem == map[from + c / 8 := -1] && to != from
    ensures ByteAt(mem, 8 * from + c) == 255 && ByteAt(mem, 8 * to + c) == 0
  {
    assert (8 * from + c) / 8 == from + c / 8 && (8 * to + c) / 8 == to + c / 8;
    BytesOfOnes((8 * from + c) % 8);
    BytesOfZero((8 * to + c) % 8);
  }

  lemma {:induction false} BytesOfOnes(j: nat)
    ensures ByteOf(-1, j) == 255
  {
    if j > 0 { BytesOfOnes(j - 1); }
  }

  lemma {:induction false} BytesOfZero(j: nat)
    ensures ByteOf(0, j) == 0
  {
    if j > 0 { BytesOfZero(j - 1); }
  }

  lemma BytesKept(mem: Memory, mem1: Memory, owned: map<int, Block>, p: int, n: nat)
    requires SameData(mem, mem1, owned) && p in owned && n <= Capacity(owned[p].size)
    ensures forall b: nat :: b < n ==> Byte(mem1, p, b) == Byte(mem, p, b)
  {
    hide Load, Room, SameData, ByteOf, Capacity, WordsOf;
    CapacityInRoom(owned[p].size);
    WordsGrow(n, Capacity(owned[p].size));
    WordKept(mem, mem1, owned, p, WordsOf(n));
    forall b: nat | b < n
      ensures Byte(mem1, p, b) == Byte(mem, p, b)
    {
      assert (8 * p + b) / 8 == p + b / 8 && b / 8 < WordsOf(n) by { WordOfByte(b, n); }
      assert Word(mem1, p, b / 8) == Word(mem, p, b / 8);
    }
  }

  lemma WordOfByte(b: nat, n: nat)
    requires b < n
    ensures b / 8 < WordsOf(n)
  {
  }

  lemma BytesCopied(mem: Memory, mem1: Memory, to: int, from: int, n: nat)
    requires forall a :: Load(mem1, a) == Load(CopyBytes(mem, to, from, n), a)
    ensures forall b: nat :: b < n ==> Byte(mem1, to, b) == Byte(mem, from, b)
  {
    hide CopyBytes, Load, ByteOf;
    forall b: nat | b < n
      ensures Byte(mem1, to, b) == Byte(mem, from, b)
    {
      CopiedByte(mem, to, from, n, 8 * to + b);
    }
  }

  lemma BlocksApart(mem: Memory, chunks: map<int, Chunk>, big: map<int, nat>, owned: map<int, Block>, p: int, q: int)
    requires Layout(chunks, big) && HandedOut(mem, chunks, big, owned) && p in owned && q in owned && p != q
    ensures Apart(p, Room(owned[p].size), q, Room(owned[q].size)) && 0 < Room(owned[p].size) && 0 < Room(owned[q].size)
  {
    RoomOf(mem, chunks, big, owned, p);
    RoomOf(mem, chunks, big, owned, q);
  }

  lemma WordsGrow(m: nat, n: nat)
    requires m <= n
    ensures WordsOf(m) <= WordsOf(n) && 8 * WordsOf(m) < m + 8
  {
  }

  lemma Stored(mem: Memory, a: int, v: int)
    ensures var mem1 := mem[a := v]; forall b :: Load(mem1, b) == if b == a then v else Load(mem, b)
  {
    var mem1 := mem[a := v];
    forall b
      ensures Load(mem1, b) == if b == a then v else Load(mem, b)
    {
      if b != a && b in mem { assert mem1[b] == mem[b]; }
    }
  }

  // ----- where the chunks are -----

  /** Every chunk is in use, or it is on the list of exactly one thread, once. */
  lemma EveryChunkOnce(mem: Memory, root: map<Stack, int>, lists: map<Stack, seq<int>>, chunks: map<int, Chunk>,
                       big: map<int, nat>, owned: map<int, Block>, a: int)
    requires Stacks(mem, root, lists, chunks) && Layout(chunks, big) && HandedOut(mem, chunks, big, owned) && a in chunks
    ensures a in owned <==> chunks[a].place == Live
    ensures a in owned ==> forall k: Stack :: a !in List(lists, k)
    ensures a !in owned ==>
      var home := Stack(chunks[a].place.thread, chunks[a].level);
      forall k: Stack :: multiset(List(lists, k))[a] == if k == home then 1 else 0
  {
    hide ChunkWords, Load;
    if chunks[a].place.Listed? { FreeChunkAlone(mem, chunks, big, owned, a); }
    forall k: Stack
      ensures multiset(List(lists, k))[a] == if chunks[a] == Chunk(k.level, Listed(k.thread)) then 1 else 0
    {
      AtStack(mem, root, lists, chunks, k);
      ListInChunks(List(lists, k), chunks, k);
      OccursOnce(List(lists, k), a);
    }
  }

  lemma {:induction false} OccursOnce(list: seq<int>, a: int)
    requires Distinct(list)
    ensures multiset(list)[a] == if a in list then 1 else 0
  {
    if list != [] {
      var n := |list| - 1;
      OccursOnce(list[..n], a);
      assert list == list[..n] + [list[n]];
    }
  }

  /** Chunks in use and free chunks of a size class add up to the blocks carved for it. */
  lemma LiveAndFree(chunks: map<int, Chunk>, expansions: map<nat, nat>, level: nat)
    requires Counted(chunks, expansions) && level < LEVELS
    ensures var live := set a | a in chunks && chunks[a] == Chunk(level, Live);
      var free := set a | a in chunks && chunks[a].level == level && chunks[a].place.Listed?;
      |live| + |free| == Expansions(expansions, level) * ChunksPerBlock(level)
  {
    hide ChunksPerBlock;
    var live := set a | a in chunks && chunks[a] == Chunk(level, Live);
    var free := set a | a in chunks && chunks[a].level == level && chunks[a].place.Listed?;
    assert ChunksOf(chunks, level) == live + free && live !! free;
  }
}

module Allocators {
  import opened AllocatorState

  class Allocator {
    var mem: Memory
    var root: map<Stack, int>          // _root of every thread's stacks; absent before first use
    ghost var lists: map<Stack, seq<int>>
    ghost var chunks: map<int, Chunk>  // every chunk ever carved
    ghost var big: map<int, nat>       // blocks from malloc
    ghost var owned: map<int, Block>   // blocks handed out and not yet given back
    ghost var expansions: map<nat, nat>

    ghost function Held(): Pool
      reads this`chunks, this`lists, this`expansions
    {
      Pool(chunks, lists, expansions)
    }

    ghost predicate Valid()
      reads this
    {
      Stacks(mem, root, lists, chunks) && Layout(chunks, big) && HandedOut(mem, chunks, big, owned) &&
      Counted(chunks, expansions)
    }

    constructor ()
      ensures Valid() && owned == map[] && chunks == map[] && big == map[] && root == map[] && lists == map[]
    {
      mem, root, lists, chunks, big, owned := map[], map[], map[], map[], map[], map[];
      expansions := map[];
    }

    /** Links the chunks of a new block to one another, the last one to `end`. */
    method LinkChunks(base: int, width: int, count: nat, end: int)
      requires width > 0 && count > 0
      modifies this`mem
      ensures Linked(mem, Carved(base, width, count), end)
      ensures forall a :: a !in Carved(base, width, count) ==> Load(mem, a) == old(Load(mem, a))
    {
      ghost var carved := Carved(base, width, count);
      CarvedDistinct(base, width, count);
      var i := 0;
      while i < count - 1
        invariant 0 <= i < count
        invariant forall j :: 0 <= j < i ==> Load(mem, carved[j]) == Follower(carved, j, end)
        invariant forall a :: a !in carved ==> Load(mem, a) == old(Load(mem, a))
      {
        assert carved[i] == base + i * width && carved[i + 1] == base + (i + 1) * width;
        mem := mem[base + i * width := base + (i + 1) * width];
        i := i + 1;
      }
      assert carved[i] == base + i * width;
      mem := mem[base + (count - 1) * width := end];
    }

    /** Carves a new block into chunks and links them on top of the stack. */
    method Expand(t: nat, level: nat, base: int)
      requires Valid() && level < LEVELS && Unused(chunks, big, base, BlockWords(level))
      modifies this
      ensures Valid() && owned == old(owned) && big == old(big) && SameData(old(mem), mem, owned)
      ensures Root(root, Stack(t, level)) == base > 0
      ensures forall a :: a in NewBlock(base, level) ==> a !in old(chunks)
      ensures chunks == WithCarved(old(chunks), NewBlock(base, level), Chunk(level, Listed(t)))
      ensures lists == old(lists)[Stack(t, level) := NewBlock(base, level) + List(old(lists), Stack(t, level))]
      ensures expansions == old(expansions)[level := Expansions(old(expansions), level) + 1]
    {
      hide Stacks, Layout, HandedOut, Counted, Linked, Unused, SameData, Load, List, ChunkWords, ChunksPerBlock,
        BlockWords, Carved, WithCarved;
      var k := Stack(t, level);
      ghost var carved, c := Carved(base, ChunkWords(level), ChunksPerBlock(level)), Chunk(level, Listed(t));
      LinkChunks(base, ChunkWords(level), ChunksPerBlock(level), Root(root, k));
      root := root[k := base];
      ExpandKeeps(old(mem), mem, old(root), lists, chunks, big, owned, k, base);
      NewChunks(chunks, big, base, level);
      assert carved[0] in carved;
      CarveCounted(chunks, expansions, carved, c);
      lists := lists[k := carved + List(lists, k)];
      chunks := WithCarved(chunks, carved, c);
      expansions := expansions[level := Expansions(expansions, level) + 1];
    }

    /** Takes the top chunk of a thread's stack for a request of `size` bytes; an empty stack first gets a new block. */
    method StackAllocate(t: nat, level: nat, base: int, ghost size: nat) returns (item: int)
      requires Valid() && LevelOf(size) == level < LEVELS
      requires Root(root, Stack(t, level)) == 0 ==> Unused(chunks, big, base, BlockWords(level))
      modifies this
      ensures Valid() && big == old(big) && SameData(old(mem), mem, old(owned))
      ensures item !in old(owned) && owned == old(owned)[item := Block(size, false)]
      ensures Served(old(Held()), Held(), Stack(t, level), base, item)
    {
      hide Stacks, Layout, HandedOut, Counted, Unused, SameData, Load, NewBlock, WithCarved, LevelOf, Root;
      var k := Stack(t, level);
      SameDataItself(mem, owned);
      Filled(mem, root, lists, chunks, k);
      if Root(root, k) == 0 {
        Expand(t, level, base);
        FirstOfBlock(base, level);
        assert NewBlock(base, level) + [] == NewBlock(base, level);
      }
      ghost var before := mem;
      item := Take(t, level, size);
      SameDataThrough(old(mem), before, mem, old(owned));
    }

    /** Takes the top chunk of a stack that has one. */
    method Take(t: nat, level: nat, ghost size: nat) returns (item: int)
      requires Valid() && LevelOf(size) == level < LEVELS && List(lists, Stack(t, level)) != []
      modifies this
      ensures Valid() && big == old(big) && SameData(old(mem), mem, old(owned)) && expansions == old(expansions)
      ensures item !in old(owned) && owned == old(owned)[item := Block(size, false)]
      ensures item == List(old(lists), Stack(t, level))[0] && item in old(chunks)
      ensures chunks == old(chunks)[item := Chunk(level, Live)]
      ensures lists == old(lists)[Stack(t, level) := List(old(lists), Stack(t, level))[1..]]
    {
      hide Stacks, Layout, HandedOut, Counted, SameData, Load, LevelOf, Root;
      var k := Stack(t, level);
      item := Root(root, k);
      Filled(mem, root, lists, chunks, k);
      TakeStacks(mem, root, lists, chunks, k);
      TakeKeeps(mem, chunks, big, owned, item, size);
      Moved(chunks, big, expansions, item, Live);
      root := root[k := Load(mem, item)];
      mem := mem[item := 0];
      lists := lists[k := List(lists, k)[1..]];
      chunks := chunks[item := Chunk(level, Live)];
      owned := owned[item := Block(size, false)];
    }

    /** Puts a chunk on top of a thread's stack; the thread need not be the one that took it. */
    method StackDeallocate(t: nat, level: nat, ptr: int)
      requires Valid() && ptr in owned && LevelOf(owned[ptr].size) == level < LEVELS
      modifies this
      ensures Valid() && big == old(big) && owned == old(owned) - {ptr} && SameData(old(mem), mem, owned)
      ensures Root(root, Stack(t, level)) == ptr
      ensures TakenBack(old(Held()), Held(), Stack(t, level), ptr)
    {
      hide Stacks, Layout, HandedOut, Counted, SameData, Load;
      var k := Stack(t, level);
      OwnedChunk(mem, chunks, big, owned, ptr);
      PutKeeps(mem, chunks, big, owned, ptr, t, Root(root, k));
      PutStacks(mem, root, lists, chunks, k, ptr);
      Moved(chunks, big, expansions, ptr, Listed(t));
      mem := mem[ptr := Root(root, k)];
      root := root[k := ptr];
      lists := lists[k := [ptr] + List(lists, k)];
      chunks := chunks[ptr := Chunk(level, Listed(t))];
      owned := owned - {ptr};
    }

    /** The words that the system has to supply at `base` for a request of thread `t`. */
    ghost predicate Supplied(t: nat, n: nat, base: int)
      reads this
    {
      if LevelOf(n) == LEVELS then Unused(chunks, big, base, WordsOf(n))
      else Root(root, Stack(t, LevelOf(n))) == 0 ==> Unused(chunks, big, base, BlockWords(LevelOf(n)))
    }

    method Allocate(t: nat, n: nat, base: int) returns (p: int)
      requires Valid() && Supplied(t, n, base)
      modifies this
      ensures Valid() && p !in old(owned) && owned == old(owned)[p := Block(n, false)]
      ensures SameData(old(mem), mem, old(owned))
      ensures Requested(old(Held()), Held(), t, n, base, p)
      ensures if LevelOf(n) < LEVELS then big == old(big) else p == base && big == old(big)[p := WordsOf(n)]
    {
      hide Stacks, Layout, HandedOut, Counted, SameData, Unused, Served;
      if n <= ChunkBytes(0) {
        p := StackAllocate(t, 0, base, n);
      } else if n <= ChunkBytes(1) {
        p := StackAllocate(t, 1, base, n);
      } else if n <= ChunkBytes(2) {
        p := StackAllocate(t, 2, base, n);
      } else {
        BigKeeps(mem, chunks, big, owned, base, n);
        p := base;
        big := big[base := WordsOf(n)];
        owned := owned[base := Block(n, false)];
      }
    }

    /** The size given must belong to the size class of the block. */
    method Deallocate(t: nat, ptr: int, n: nat)
      requires Valid() && ptr in owned && LevelOf(owned[ptr].size) == LevelOf(n)
      modifies this
      ensures Valid() && owned == old(owned) - {ptr} && SameData(old(mem), mem, owned)
      ensures LevelOf(n) < LEVELS ==> Root(root, Stack(t, LevelOf(n))) == ptr
      ensures GivenBack(old(Held()), Held(), t, n, ptr)
      ensures big == if LevelOf(n) < LEVELS then old(big) else old(big) - {ptr}
    {
      hide Stacks, Layout, HandedOut, Counted, SameData, Unused, TakenBack;
      if n <= ChunkBytes(0) {
        StackDeallocate(t, 0, ptr);
      } else if n <= ChunkBytes(1) {
        StackDeallocate(t, 1, ptr);
      } else if n <= ChunkBytes(2) {
        StackDeallocate(t, 2, ptr);
      } else {
        FreeKeeps(mem, chunks, big, owned, ptr);
        big := big - {ptr};
        owned := owned - {ptr};
      }
    }

    /** A program writes word `i` of a block that it uses; the header of `new` is not part of what it uses. */
    method Store(p: int, i: nat, v: int)
      requires Valid() && p in owned && i < Room(owned[p].size) && (owned[p].headed ==> i > 0)
      modifies this`mem
      ensures Valid() && mem == old(mem)[p + i := v] && SameData(old(mem), mem, owned - {p})
    {
      hide Stacks, Layout, HandedOut, Counted, SameData;
      StoreKeeps(mem, root, lists, chunks, big, owned, p, i, v);
      mem := mem[p + i := v];
    }

    /** `operator new`: the size goes into the word before the block. */
    method New(t: nat, nbytes: nat, base: int) returns (q: int)
      requires Valid() && Supplied(t, nbytes + 8, base)
      modifies this
      ensures Valid() && q - 1 !in old(owned) && owned == old(owned)[q - 1 := Block(nbytes + 8, true)] && q > 1
      ensures SameData(old(mem), mem, old(owned))
      ensures Requested(old(Held()), Held(), t, nbytes + 8, base, q - 1)
      ensures if LevelOf(nbytes + 8) < LEVELS then big == old(big)
        else q - 1 == base && big == old(big)[base := WordsOf(nbytes + 8)]
    {
      hide Stacks, Layout, HandedOut, Counted, SameData, Supplied, Served, Requested;
      var p := Allocate(t, nbytes + 8, base);
      RequestFits(nbytes + 8);
      InsideBlock(mem, chunks, big, owned, p, 0);
      ghost var before := mem;
      Store(p, 0, nbytes);
      FewerBlocks(before, mem, old(owned), owned - {p});
      SameDataThrough(old(mem), before, mem, old(owned));
      HeaderSet(mem, chunks, big, owned, p, nbytes);
      owned := owned[p := Block(nbytes + 8, true)];
      q := p + 1;
    }

    /** `operator delete`, on any thread: the block goes back to the size class that `new` took it from. */
    method Delete(t: nat, q: int)
      requires Valid() && (q != 0 ==> q - 1 in owned && owned[q - 1].headed)
      modifies this
      ensures q == 0 ==> unchanged(this)
      ensures q != 0 ==> Valid() && owned == old(owned) - {q - 1} && SameData(old(mem), mem, owned)
      ensures q != 0 && LevelOf(old(owned)[q - 1].size) < LEVELS ==>
        Root(root, Stack(t, LevelOf(old(owned)[q - 1].size))) == q - 1
      ensures q != 0 ==> GivenBack(old(Held()), Held(), t, old(owned)[q - 1].size, q - 1)
      ensures q != 0 ==> big == if LevelOf(old(owned)[q - 1].size) < LEVELS then old(big) else old(big) - {q - 1}
    {
      hide Stacks, Layout, HandedOut, Counted, SameData, TakenBack, GivenBack;
      if q == 0 { return; }
      var p := q - 1;
      HeaderHolds(mem, chunks, big, owned, p);
      Deallocate(t, p, Load(mem, p) + 8);
    }

    /**
     * `memcpy`, word by word. Between blocks in use, bytes that fit disturb nothing else; otherwise the words behind the
     * block are overwritten, whatever they are.
     */
    method Copy(to: int, from: int, n: nat)
      requires Valid() && to in owned && from in owned && to != from && !owned[to].headed
      requires n <= Capacity(owned[from].size)
      modifies this`mem
      ensures forall a :: Load(mem, a) == Load(CopyBytes(old(mem), to, from, n), a)
      ensures n <= Capacity(owned[to].size) ==> Valid() && SameData(old(mem), mem, owned - {to})
    {
      hide Stacks, Layout, HandedOut, Counted, SameData, Room, Load, Merge, CopyBytes, Capacity, WordsOf;
      ghost var fits := n <= Capacity(owned[to].size);
      BlocksApart(mem, chunks, big, owned, from, to);
      SameDataItself(mem, owned - {to});
      WordsGrow(n, Capacity(owned[from].size));
      CapacityInRoom(owned[from].size);
      if fits { WordsGrow(n, Capacity(owned[to].size)); }
      CapacityInRoom(owned[to].size);
      var i := 0;
      while i < WordsOf(n)
        invariant 0 <= i <= WordsOf(n)
        invariant forall a :: Load(mem, a) == if a < to + i then CopiedWord(old(mem), to, from, n, a) else old(Load(mem, a))
        invariant fits ==> Valid() && SameData(old(mem), mem, owned - {to})
      {
        var v := Load(mem, from + i);
        if n < 8 * i + 8 { v := Merge(Load(mem, to + i), v, n - 8 * i); }
        assert v == CopiedWord(old(mem), to, from, n, to + i);
        if fits {
          StoreKeeps(mem, root, lists, chunks, big, owned, to, i, v);
          SameDataThrough(old(mem), mem, mem[to + i := v], owned - {to});
        }
        Stored(mem, to + i, v);
        mem := mem[to + i := v];
        i := i + 1;
      }
    }

    /**
     * Moves a block to a new size. The code copies all `oldn` bytes: they stay inside the new block exactly if that block
     * has room for them. Otherwise the words behind it are overwritten, and nothing more can be said.
     */
    method Reallocate(t: nat, ptr: int, oldn: nat, newn: nat, base: int) returns (r: Outcome)
      requires Valid() && ptr in owned && owned[ptr] == Block(oldn, false)
      requires oldn != newn ==> Supplied(t, newn, base)
      modifies this
      ensures r.Fitted? <==> oldn <= Capacity(newn)
      ensures r.Fitted? ==> Valid() && owned == (old(owned) - {ptr})[r.at := Block(newn, false)]
      ensures r.Fitted? ==> SameData(old(mem), mem, old(owned) - {ptr})
      ensures r.Overrun? ==> r.at !in old(owned) && owned == old(owned)[r.at := Block(newn, false)]
      ensures forall b: nat :: b < oldn ==> Byte(mem, r.at, b) == old(Byte(mem, ptr, b))
      ensures old(chunks).Keys <= chunks.Keys
      ensures oldn == newn ==> r == Fitted(ptr) && Held() == old(Held())
      ensures r.Fitted? && oldn != newn ==> exists q: Pool ::
        Requested(old(Held()), q, t, newn, base, r.at) && GivenBack(q, Held(), t, oldn, ptr)
      ensures r.Overrun? ==> Requested(old(Held()), Held(), t, newn, base, r.at)
    {
      hide Stacks, Layout, HandedOut, Counted, SameData, Supplied, Room, WordsOf, LevelOf, Capacity, Load, CopyBytes, Byte,
        NewBlock, WithCarved;
      SameDataItself(mem, owned - {ptr});
      CapacityInRoom(oldn);
      if oldn == newn { return Fitted(ptr); }
      var newptr := Allocate(t, newn, base);
      ghost var between := Held();
      RequestKeeps(old(Held()), between, t, newn, base, newptr);
      ghost var first := mem;
      BytesKept(old(mem), first, old(owned), ptr, oldn);
      Copy(newptr, ptr, oldn);
      BytesCopied(first, mem, newptr, ptr, oldn);
      if Capacity(newn) < oldn { return Overrun(newptr); }
      ghost var second, others := mem, owned - {newptr};
      Deallocate(t, ptr, oldn);
      BytesKept(second, mem, owned, newptr, oldn);
      FewerBlocks(old(mem), first, old(owned) - {ptr}, old(owned));
      FewerBlocks(first, second, old(owned) - {ptr}, others);
      FewerBlocks(second, mem, old(owned) - {ptr}, owned);
      SameDataThrough(old(mem), first, second, old(owned) - {ptr});
      SameDataThrough(old(mem), second, mem, old(owned) - {ptr});
      assert Requested(old(Held()), between, t, newn, base, newptr) && GivenBack(between, Held(), t, oldn, ptr);
      return Fitted(newptr);
    }
  }

  /** The link in the second chunk of a new block at word 8193, as bytes. */
  lemma LinkByte(mem: Memory, root: map<Stack, int>, lists: map<Stack, seq<int>>, chunks: map<int, Chunk>)
    requires Stacks(mem, root, lists, chunks) && List(lists, Stack(0, 0)) == NewBlock(8193, 0)[1..]
    ensures Byte(mem, 8193, 64) == 8209 % 256
  {
    hide NewBlock, Stacks, Load, List, Root, ListedRight;
    SecondLink();
    AtStack(mem, root, lists, chunks, Stack(0, 0));
    var list := List(lists, Stack(0, 0));
    assert Load(mem, list[0]) == Follower(list, 0, 0);
  }

  lemma SecondLink()
    ensures |NewBlock(8193, 0)| > 2 && NewBlock(8193, 0)[1] == 8201 && NewBlock(8193, 0)[2] == 8209
  {
    assert NewBlock(8193, 0)[1] == 8193 + 1 * ChunkWords(0) && NewBlock(8193, 0)[2] == 8193 + 2 * ChunkWords(0);
  }

  /** A first block at word 1 ends where another one can begin. */
  lemma FirstBlockEnds(chunks: map<int, Chunk>, item: int)
    requires chunks == Grown(map[], map[], Stack(0, 2), 1)[item := Chunk(2, Live)] && item == NewBlock(1, 2)[0]
    ensures item == 1 && Unused(chunks, map[], 8193, BlockWords(0))
  {
    CarvedBlock(1, 2);
    assert forall a :: a in chunks ==> a in NewBlock(1, 2) && chunks[a].level == 2;
  }

  /**
   * On a fresh thread, a block of 192 bytes moved to the class of 64 bytes overwrites the link in the next free chunk with
   * the ninth word of its contents.
   */
  method ShrinkingBreaksAList() returns (a: Allocator)
    ensures List(a.lists, Stack(0, 0)) == NewBlock(8193, 0)[1..] && !Stacks(a.mem, a.root, a.lists, a.chunks)
  {
    hide Stacks, Layout, HandedOut, Counted, SameData, WithCarved, NewBlock, Carved, Unused, CopyBytes, Grown;
    a := new Allocator();
    assert Unused(map[], map[], 1, BlockWords(2)) by { NothingUsed(1, BlockWords(2)); }
    var p := a.Allocate(0, 192, 1);
    FirstBlockEnds(a.chunks, p);
    a.Store(p, 8, 7);
    assert Byte(a.mem, p, 64) == 7;
    var r := a.Reallocate(0, p, 192, 64, 8193);
    assert NewBlock(8193, 0)[0] == 8193 by { FirstOfBlock(8193, 0); }
    assert r == Overrun(8193);
    if Stacks(a.mem, a.root, a.lists, a.chunks) { LinkByte(a.mem, a.root, a.lists, a.chunks); }
  }

  lemma NothingUsed(base: int, words: nat)
    requires base > 0
    ensures Unused(map[], map[], base, words)
  {
  }

  datatype Outcome = Fitted(at: int) | Overrun(at: int)
}
