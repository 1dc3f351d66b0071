// The depth-first walk over the call graph of the transforms.

module CallTree {
  datatype Name = Name(text: string)

  /** Callback `Up` runs when a transform is entered, `Down` when it is left. */
  datatype Event =
    | Up(name: Name, depth: nat, loops: nat)
    | Down(name: Name, depth: nat, loops: nat)

  /** The part of the graph that a walk covers, as a tree. */
  datatype Tree = Node(name: Name, loops: nat, kids: seq<Tree>)

  type Graph = map<Name, seq<Name>>

  ghost predicate Closed(calls: Graph) {
    forall n, i :: n in calls && 0 <= i < |calls[n]| ==> calls[n][i] in calls
  }

  /** How many of the callees have been seen. */
  function Seen(callees: seq<Name>, seen: set<Name>): nat {
    if callees == [] then 0 else Seen(callees[..|callees| - 1], seen) + if callees[|callees| - 1] in seen then 1 else 0
  }

  /** The positions of the callees that have been seen. */
  ghost function Known(callees: seq<Name>, seen: set<Name>): set<nat> {
    set i: nat | i < |callees| && callees[i] in seen
  }

  lemma {:induction false} SeenCounts(callees: seq<Name>, seen: set<Name>)
    ensures Seen(callees, seen) == |Known(callees, seen)|
  {
    if callees != [] {
      var n := |callees| - 1;
      SeenCounts(callees[..n], seen);
      assert Known(callees, seen) == Known(callees[..n], seen) + if callees[n] in seen then {n} else {};
    }
  }

  /** The callbacks of the walk over a tree, entry before and exit after those of the kids. */
  function Trace(t: Tree, depth: nat): seq<Event> {
    [Up(t.name, depth, t.loops)] + Traces(t.kids, depth + 1) + [Down(t.name, depth, t.loops)]
  }

  function Traces(ts: seq<Tree>, depth: nat): seq<Event> {
    if ts == [] then [] else Traces(ts[..|ts| - 1], depth) + Trace(ts[|ts| - 1], depth)
  }

  function Names(t: Tree): seq<Name> { [t.name] + AllNames(t.kids) }

  function AllNames(ts: seq<Tree>): seq<Name> {
    if ts == [] then [] else AllNames(ts[..|ts| - 1]) + Names(ts[|ts| - 1])
  }

  function ToSet(ns: seq<Name>): set<Name> { set n | n in ns }

  ghost predicate Distinct(ns: seq<Name>) { forall i, j :: 0 <= i < j < |ns| ==> ns[i] != ns[j] }

  /** Every kid is called by its parent. */
  ghost predicate FollowsCalls(t: Tree, calls: Graph) {
    t.name in calls && AllFollowCalls(t.kids, calls) && Called(t.kids, calls[t.name])
  }

  predicate Called(kids: seq<Tree>, callees: seq<Name>) {
    forall i :: 0 <= i < |kids| ==> kids[i].name in callees
  }

  ghost predicate AllFollowCalls(ts: seq<Tree>, calls: Graph) {
    forall i :: 0 <= i < |ts| ==> FollowsCalls(ts[i], calls)
  }

  /** `loops` of every node counts the callees that were entered before it, or are the node itself. */
  ghost predicate LoopsRight(t: Tree, before: set<Name>, calls: Graph)
    decreases t, 1
  {
    t.name in calls && t.loops == Seen(calls[t.name], before + {t.name}) &&
    AllLoopsRight(t.kids, before + {t.name}, calls)
  }

  ghost predicate AllLoopsRight(ts: seq<Tree>, before: set<Name>, calls: Graph)
    decreases ts, 0
  {
    ts == [] ||
    (AllLoopsRight(ts[..|ts| - 1], before, calls) &&
     LoopsRight(ts[|ts| - 1], before + ToSet(AllNames(ts[..|ts| - 1])), calls))
  }

  /** All callees of the names are in the set. */
  ghost predicate Covered(ns: seq<Name>, calls: Graph, seen: set<Name>) {
    forall n, i :: n in ns && n in calls && 0 <= i < |calls[n]| ==> calls[n][i] in seen
  }

  /** The names are what a walk has added to `before`, each once, and all their callees have been seen. */
  ghost predicate Adds(ns: seq<Name>, before: set<Name>, seen: set<Name>, calls: Graph) {
    seen == before + ToSet(ns) && Distinct(ns) && (forall i :: 0 <= i < |ns| ==> ns[i] !in before) &&
    Covered(ns, calls, seen)
  }

  lemma AddKid(ns: seq<Name>, more: seq<Name>, before: set<Name>, between: set<Name>, seen: set<Name>, calls: Graph)
    requires Adds(ns, before, between, calls) && Adds(more, between, seen, calls)
    ensures Adds(ns + more, before, seen, calls)
  {
    var all := ns + more;
    assert forall n :: n in all <==> n in ns || n in more;
    forall i, j | 0 <= i < j < |all|
      ensures all[i] != all[j]
    {
      if i < |ns| <= j { assert all[i] in ToSet(ns) && all[j] == more[j - |ns|]; }
    }
    forall i | 0 <= i < |all|
      ensures all[i] !in before
    {
      if i >= |ns| { assert all[i] == more[i - |ns|]; }
    }
    assert seen == before + ToSet(all);
  }

  lemma AddRoot(n: Name, ns: seq<Name>, before: set<Name>, seen: set<Name>, calls: Graph)
    requires n !in before && n in calls && Adds(ns, before + {n}, seen, calls)
    requires forall i :: 0 <= i < |calls[n]| ==> calls[n][i] in seen
    ensures Adds([n] + ns, before, seen, calls)
  {
    var all := [n] + ns;
    assert forall m :: m in all <==> m == n || m in ns;
    assert forall i :: 0 < i < |all| ==> all[i] == ns[i - 1];
    assert seen == before + ToSet(all);
  }

  /** What a walk has done of the kids of `tx`, entered with the trace `entered` and `before` seen. */
  ghost predicate Progress(kids: seq<Tree>, entered: seq<Event>, trace: seq<Event>, before: set<Name>, seen: set<Name>,
                           tx: Name, depth: nat, calls: Graph) {
    trace == entered + Traces(kids, depth + 1) && tx in calls && AllFollowCalls(kids, calls) &&
    Called(kids, calls[tx]) && AllLoopsRight(kids, before, calls) && Adds(AllNames(kids), before, seen, calls)
  }

  lemma NoKids(entered: seq<Event>, seen: set<Name>, tx: Name, depth: nat, calls: Graph)
    requires tx in calls
    ensures Progress([], entered, entered, seen, seen, tx, depth, calls)
  {
    assert ToSet([]) == {};
  }

  lemma NextKid(kids: seq<Tree>, kid: Tree, entered: seq<Event>, so: seq<Event>, trace: seq<Event>, before: set<Name>,
                between: set<Name>, seen: set<Name>, tx: Name, depth: nat, calls: Graph)
    requires Progress(kids, entered, so, before, between, tx, depth, calls) && kid.name in calls[tx]
    requires trace == so + Trace(kid, depth + 1) && FollowsCalls(kid, calls) && LoopsRight(kid, between, calls)
    requires Adds(Names(kid), between, seen, calls)
    ensures Progress(kids + [kid], entered, trace, before, seen, tx, depth, calls)
  {
    hide Trace, Names, FollowsCalls, LoopsRight;
    var all := kids + [kid];
    assert all[..|kids|] == kids && all[|kids|] == kid;
    AddKid(AllNames(kids), Names(kid), before, between, seen, calls);
    assert between == before + ToSet(AllNames(kids));
    hide Adds;
    assert entered + Traces(kids, depth + 1) + Trace(kid, depth + 1) ==
      entered + (Traces(kids, depth + 1) + Trace(kid, depth + 1));
  }

  lemma Leave(t: Tree, first: seq<Event>, trace: seq<Event>, before: set<Name>, seen: set<Name>, depth: nat, calls: Graph)
    requires trace != [] && t.name in before && trace[|trace| - 1] == Down(t.name, depth, t.loops)
    requires Progress(t.kids, first + [Up(t.name, depth, t.loops)], trace[..|trace| - 1], before, seen, t.name, depth, calls)
    requires t.loops == Seen(calls[t.name], before) && forall i :: 0 <= i < |calls[t.name]| ==> calls[t.name][i] in seen
    ensures trace == first + Trace(t, depth) && FollowsCalls(t, calls) && LoopsRight(t, before - {t.name}, calls)
    ensures Adds(Names(t), before - {t.name}, seen, calls)
  {
    hide Seen, AllLoopsRight, AllFollowCalls, Called, Traces, AllNames, Adds;
    assert before - {t.name} + {t.name} == before;
    AddRoot(t.name, AllNames(t.kids), before - {t.name}, seen, calls);
  }

  class Walker {
    const calls: Graph
    var seen: set<Name>
    var trace: seq<Event>

    constructor (calls: Graph)
      ensures this.calls == calls && seen == {} && trace == []
    {
      this.calls := calls;
      seen, trace := {}, [];
    }

    /** `_walkCallTree`: `tx` has just been added to `seen`. */
    method Walk(tx: Name, depth: nat) returns (ghost t: Tree)
      requires Closed(calls) && tx in calls && tx in seen && seen <= calls.Keys
      modifies this
      ensures trace == old(trace) + Trace(t, depth) && t.name == tx && FollowsCalls(t, calls)
      ensures LoopsRight(t, old(seen) - {tx}, calls) && old(seen) <= seen <= calls.Keys
      ensures Adds(Names(t), old(seen) - {tx}, seen, calls)
      decreases |calls.Keys - seen|
    {
      hide Adds, Seen, Trace, FollowsCalls, LoopsRight, Progress;
      var loops := CountSeen(calls[tx]);
      trace := trace + [Up(tx, depth, loops)];
      ghost var kids: seq<Tree>, entered := [], trace;
      NoKids(entered, seen, tx, depth, calls);
      var i := 0;
      while i < |calls[tx]|
        invariant 0 <= i <= |calls[tx]| && old(seen) <= seen <= calls.Keys
        invariant Progress(kids, entered, trace, old(seen), seen, tx, depth, calls)
        invariant forall j :: 0 <= j < i ==> calls[tx][j] in seen
      {
        var n := calls[tx][i];
        if n !in seen {
          ghost var between, so := seen, trace;
          seen := seen + {n};
          SmallerRest(calls.Keys, old(seen), seen, n);
          ghost var kid := Walk(n, depth + 1);
          assert between + {n} - {n} == between && between <= seen && n in seen;
          NextKid(kids, kid, entered, so, trace, old(seen), between, seen, tx, depth, calls);
          kids := kids + [kid];
        }
        i := i + 1;
      }
      t := Node(tx, loops, kids);
      trace := trace + [Down(tx, depth, loops)];
      Leave(t, old(trace), trace, old(seen), seen, depth, calls);
    }

    method CountSeen(callees: seq<Name>) returns (loops: nat)
      ensures loops == Seen(callees, seen) == |Known(callees, seen)|
    {
      SeenCounts(callees, seen);
      loops := 0;
      var i := 0;
      while i < |callees|
        invariant 0 <= i <= |callees| && loops == Seen(callees[..i], seen)
      {
        assert callees[..i + 1][..i] == callees[..i];
        if callees[i] in seen { loops := loops + 1; }
        i := i + 1;
      }
      assert callees[..i] == callees;
    }
  }

  lemma SmallerRest(all: set<Name>, before: set<Name>, seen: set<Name>, n: Name)
    requires before <= seen && n in seen && n !in before && n in all
    ensures |all - seen| < |all - before|
  {
    assert n in all - before;
    SubsetSize(all - seen, all - before - {n});
  }

  lemma SubsetSize(a: set<Name>, b: set<Name>)
    requires a <= b
    ensures |a| <= |b|
  {
    assert b == a + (b - a);
  }

  // ----- the whole walk -----

  ghost predicate Path(p: seq<Name>, calls: Graph) {
    p != [] && forall i :: 0 <= i < |p| - 1 ==> p[i] in calls && p[i + 1] in calls[p[i]]
  }

  /** `b` can be reached from `a` along calls. */
  ghost predicate Reaches(a: Name, b: Name, calls: Graph) {
    exists p :: Path(p, calls) && p[0] == a && p[|p| - 1] == b
  }

  lemma ReachesNext(a: Name, b: Name, c: Name, calls: Graph)
    requires a in calls && b in calls[a] && Reaches(b, c, calls)
    ensures Reaches(a, c, calls)
  {
    var p :| Path(p, calls) && p[0] == b && p[|p| - 1] == c;
    var q := [a] + p;
    assert forall i :: 0 < i < |q| ==> q[i] == p[i - 1];
    assert Path(q, calls) && q[|q| - 1] == c;
  }

  /** Everything in a tree is reached from its root. */
  lemma TreeReached(t: Tree, calls: Graph)
    requires FollowsCalls(t, calls)
    ensures forall n :: n in Names(t) ==> Reaches(t.name, n, calls)
    decreases t, 1
  {
    assert Path([t.name], calls);
    TreesReached(t.name, t.kids, calls);
  }

  lemma TreesReached(a: Name, ts: seq<Tree>, calls: Graph)
    requires a in calls && AllFollowCalls(ts, calls) && Called(ts, calls[a])
    ensures forall n :: n in AllNames(ts) ==> Reaches(a, n, calls)
    decreases ts, 0
  {
    if ts != [] {
      var kid := ts[|ts| - 1];
      TreesReached(a, ts[..|ts| - 1], calls);
      TreeReached(kid, calls);
      forall n | n in Names(kid)
        ensures Reaches(a, n, calls)
      {
        ReachesNext(a, kid.name, n, calls);
      }
    }
  }

  /** A set that holds all callees of its members holds all that they reach. */
  lemma {:induction false} StaysCovered(ns: seq<Name>, p: seq<Name>, calls: Graph)
    requires Covered(ns, calls, ToSet(ns)) && Path(p, calls) && p[0] in ns
    ensures p[|p| - 1] in ns
  {
    if |p| > 1 {
      var i :| 0 <= i < |calls[p[0]]| && calls[p[0]][i] == p[1];
      StaysCovered(ns, p[1..], calls);
    }
  }

  function Ups(trace: seq<Event>): seq<Name> {
    if trace == [] then []
    else Ups(trace[..|trace| - 1]) + if trace[|trace| - 1].Up? then [trace[|trace| - 1].name] else []
  }

  function Downs(trace: seq<Event>): seq<Name> {
    if trace == [] then []
    else Downs(trace[..|trace| - 1]) + if trace[|trace| - 1].Down? then [trace[|trace| - 1].name] else []
  }

  lemma LastEvent(trace: seq<Event>)
    ensures trace == [] ==> Ups(trace) == [] && Downs(trace) == []
    ensures trace != [] ==>
      var e := trace[|trace| - 1];
      Ups(trace) == Ups(trace[..|trace| - 1]) + (if e.Up? then [e.name] else []) &&
      Downs(trace) == Downs(trace[..|trace| - 1]) + (if e.Down? then [e.name] else [])
  {
  }

  lemma {:induction false} EventsAppend(a: seq<Event>, b: seq<Event>)
    ensures Ups(a + b) == Ups(a) + Ups(b) && Downs(a + b) == Downs(a) + Downs(b)
    decreases |b|
  {
    hide Ups, Downs;
    LastEvent(b);
    if b == [] {
      assert a + b == a;
    } else {
      var front := b[..|b| - 1];
      EventsAppend(a, front);
      LastEvent(a + b);
      assert (a + b)[..|a + b| - 1] == a + front;
    }
  }

  lemma OneEvent(e: Event)
    ensures Ups([e]) == (if e.Up? then [e.name] else []) && Downs([e]) == (if e.Down? then [e.name] else [])
  {
    assert [e][..0] == [];
  }

  /** The entries are the names of the tree in order, the exits are the same names. */
  lemma {:induction false} EventsOfTree(t: Tree, depth: nat)
    ensures Ups(Trace(t, depth)) == Names(t) && multiset(Downs(Trace(t, depth))) == multiset(Names(t))
    decreases t, 1
  {
    hide Ups, Downs, Traces, AllNames;
    var up, down := [Up(t.name, depth, t.loops)], [Down(t.name, depth, t.loops)];
    var inner := Traces(t.kids, depth + 1);
    EventsOfTrees(t.kids, depth + 1);
    EventsAppend(up + inner, down);
    EventsAppend(up, inner);
    OneEvent(up[0]);
    OneEvent(down[0]);
    assert Downs(up + inner + down) == Downs(inner) + [t.name];
  }

  lemma {:induction false} EventsOfTrees(ts: seq<Tree>, depth: nat)
    ensures Ups(Traces(ts, depth)) == AllNames(ts) && multiset(Downs(Traces(ts, depth))) == multiset(AllNames(ts))
    decreases ts, 0
  {
    if ts != [] {
      var n := |ts| - 1;
      EventsOfTrees(ts[..n], depth);
      EventsOfTree(ts[n], depth);
      EventsAppend(Traces(ts[..n], depth), Trace(ts[n], depth));
    }
  }

  /** The callback at `p` counts the callees that were entered before it or in `before`, or are the transform itself. */
  ghost predicate CountsLoops(trace: seq<Event>, p: nat, before: set<Name>, calls: Graph) {
    p < |trace| && trace[p].name in calls &&
    trace[p].loops == |Known(calls[trace[p].name], before + ToSet(Ups(trace[..p])) + {trace[p].name})|
  }

  lemma SetOfAppend(a: seq<Name>, b: seq<Name>)
    ensures ToSet(a + b) == ToSet(a) + ToSet(b)
  {
  }

  lemma {:induction false} LoopsAt(t: Tree, depth: nat, before: set<Name>, calls: Graph, p: nat)
    requires LoopsRight(t, before, calls) && p < |Trace(t, depth)| && Trace(t, depth)[p].Up?
    ensures CountsLoops(Trace(t, depth), p, before, calls)
    decreases t, 1
  {
    hide Traces, Seen, Known, Ups;
    var trace, inner := Trace(t, depth), Traces(t.kids, depth + 1);
    if p == 0 {
      FirstLoops(t, depth, before, calls);
    } else {
      assert p - 1 < |inner| && trace[p] == inner[p - 1];
      AllLoopsAt(t.kids, depth + 1, before + {t.name}, calls, p - 1);
      var up := [Up(t.name, depth, t.loops)];
      assert trace[..p] == up + inner[..p - 1];
      EventsAppend(up, inner[..p - 1]);
      OneEvent(up[0]);
      SetOfAppend([t.name], Ups(inner[..p - 1]));
      assert before + {t.name} + ToSet(Ups(inner[..p - 1])) == before + ToSet(Ups(trace[..p]));
    }
  }

  lemma FirstLoops(t: Tree, depth: nat, before: set<Name>, calls: Graph)
    requires LoopsRight(t, before, calls)
    ensures CountsLoops(Trace(t, depth), 0, before, calls)
  {
    hide Traces, Seen, Known;
    SeenCounts(calls[t.name], before + {t.name});
    assert Trace(t, depth)[..0] == [];
    assert before + ToSet([]) + {t.name} == before + {t.name};
  }

  lemma {:induction false} AllLoopsAt(ts: seq<Tree>, depth: nat, before: set<Name>, calls: Graph, p: nat)
    requires AllLoopsRight(ts, before, calls) && p < |Traces(ts, depth)| && Traces(ts, depth)[p].Up?
    ensures CountsLoops(Traces(ts, depth), p, before, calls)
    decreases ts, 0
  {
    hide Trace, Known, Ups, LoopsRight, AllNames;
    var n := |ts| - 1;
    var front, last := Traces(ts[..n], depth), Trace(ts[n], depth);
    if p < |front| {
      AllLoopsAt(ts[..n], depth, before, calls, p);
      assert Traces(ts, depth)[..p] == front[..p];
    } else {
      var q := p - |front|;
      LoopsAt(ts[n], depth, before + ToSet(AllNames(ts[..n])), calls, q);
      assert Traces(ts, depth)[..p] == front + last[..q];
      EventsAppend(front, last[..q]);
      EventsOfTrees(ts[..n], depth);
      SetOfAppend(AllNames(ts[..n]), Ups(last[..q]));
      assert before + ToSet(AllNames(ts[..n])) + ToSet(Ups(last[..q])) == before + ToSet(Ups(Traces(ts, depth)[..p]));
    }
  }

  /**
   * The walk enters and leaves every transform that `tx` reaches, each exactly once, and nothing else; its callbacks are
   * those of a depth-first traversal of a tree of calls. A transform is entered with the number of its calls of transforms
   * entered before or of itself.
   */
  method WalkCallTree(calls: Graph, tx: Name) returns (trace: seq<Event>, ghost t: Tree)
    requires Closed(calls) && tx in calls
    ensures trace == Trace(t, 0) && t.name == tx && FollowsCalls(t, calls) && LoopsRight(t, {}, calls)
    ensures Distinct(Ups(trace)) && multiset(Downs(trace)) == multiset(Ups(trace))
    ensures forall n :: n in Ups(trace) <==> Reaches(tx, n, calls)
    ensures forall p: nat :: p < |trace| && trace[p].Up? ==> CountsLoops(trace, p, {}, calls)
  {
    hide LoopsRight, Trace, FollowsCalls, CountsLoops;
    var w := new Walker(calls);
    w.seen := w.seen + {tx};
    t := w.Walk(tx, 0);
    trace := w.trace;
    assert {tx} - {tx} == {};
    EventsOfTree(t, 0);
    TreeReached(t, calls);
    ReachedIsSeen(t, calls, w.seen);
    assert [] + Trace(t, 0) == Trace(t, 0);
    AllLoops(t, calls);
  }

  lemma AllLoops(t: Tree, calls: Graph)
    requires LoopsRight(t, {}, calls)
    ensures forall p: nat :: p < |Trace(t, 0)| && Trace(t, 0)[p].Up? ==> CountsLoops(Trace(t, 0), p, {}, calls)
  {
    hide Trace, LoopsRight, CountsLoops;
    forall p: nat | p < |Trace(t, 0)| && Trace(t, 0)[p].Up?
      ensures CountsLoops(Trace(t, 0), p, {}, calls)
    {
      LoopsAt(t, 0, {}, calls, p);
    }
  }

  lemma ReachedIsSeen(t: Tree, calls: Graph, seen: set<Name>)
    requires Adds(Names(t), {}, seen, calls)
    ensures Distinct(Names(t)) && forall n :: Reaches(t.name, n, calls) ==> n in Names(t)
  {
    forall n | Reaches(t.name, n, calls)
      ensures n in Names(t)
    {
      var p :| Path(p, calls) && p[0] == t.name && p[|p| - 1] == n;
      assert Names(t)[0] == t.name && seen == ToSet(Names(t));
      StaysCovered(Names(t), p, calls);
    }
  }
}
