// The blocking queue as a step system: any number of threads, one lock, one condition, every interleaving.

module BlockingQueue {
  datatype Option<T> = None | Some(value: T)

  /** What happened to the queue, in the order in which it happened. */
  datatype Event<T> = Pushed(e: T) | Popped(e: T) | Cleared

  /** Where a thread stands in the code of the queue. */
  datatype Pc<T> =
    | Outside
    | PushLocked(e: T)     // holds the lock, has not signalled
    | PushSignalled(e: T)  // holds the lock, has signalled, has not added its element
    | PopTest              // holds the lock, at the test of the wait loop
    | Waiting              // waits on the condition
    | Signalled            // was woken by a signal, needs the lock again
    | Spurious             // woke up on its own, needs the lock again
    | PopTake              // holds the lock, has found the queue filled
    | TryLock              // has passed the check without the lock
    | TryTest              // holds the lock, at the second check
    | TryTake              // holds the lock, has passed the second check
    | ClearLocked          // holds the lock, about to clear
    | Leaving              // holds the lock, about to release it
  {
    predicate Holds() {
      PushLocked? || PushSignalled? || PopTest? || PopTake? || TryTest? || TryTake? || ClearLocked? || Leaving?
    }
  }

  datatype State<T> = State(q: seq<T>, lock: Option<nat>, pcs: seq<Pc<T>>, history: seq<Event<T>>)

  datatype Action<T> =
    | PushEnter(e: T)
    | Signal(target: Option<nat>)
    | PushFront
    | PopEnter
    | Test
    | Take
    | WakeUp
    | Reacquire
    | TryPeek(sawEmpty: bool)  // read without the lock: may see anything
    | TryEnter
    | TryDecide
    | ClearEnter
    | Clear
    | Release

  ghost predicate Initial<T>(s: State<T>) {
    s.q == [] && s.lock == None && s.history == [] && forall i :: 0 <= i < |s.pcs| ==> s.pcs[i] == Outside
  }

  predicate SomeoneWaits<T>(pcs: seq<Pc<T>>) { exists i :: 0 <= i < |pcs| && pcs[i].Waiting? }

  /** Thread `i` can take the step `a`. */
  predicate Enabled<T>(s: State<T>, i: nat, a: Action<T>) {
    i < |s.pcs| &&
    var pc := s.pcs[i];
    match a
    case PushEnter(_) => pc.Outside? && s.lock.None?
    case Signal(target) => pc.PushLocked? &&
      (match target
       case Some(j) => j < |s.pcs| && s.pcs[j].Waiting?
       case None => !SomeoneWaits(s.pcs))
    case PushFront => pc.PushSignalled?
    case PopEnter => pc.Outside? && s.lock.None?
    case Test => pc.PopTest?
    case Take => pc.PopTake? || pc.TryTake?
    case WakeUp => pc.Waiting?
    case Reacquire => (pc.Signalled? || pc.Spurious?) && s.lock.None?
    case TryPeek(_) => pc.Outside?
    case TryEnter => pc.TryLock? && s.lock.None?
    case TryDecide => pc.TryTest?
    case ClearEnter => pc.Outside? && s.lock.None?
    case Clear => pc.ClearLocked?
    case Release => pc.Leaving?
  }

  function Put<T>(s: State<T>, i: nat, pc: Pc<T>): State<T>
    requires i < |s.pcs|
  {
    s.(pcs := s.pcs[i := pc])
  }

  /** The state after the step. Taking from an empty queue is a step that the model does not define. */
  function Apply<T>(s: State<T>, i: nat, a: Action<T>): State<T>
    requires Enabled(s, i, a) && (a.Take? ==> s.q != [])
  {
    match a
    case PushEnter(e) => Put(s.(lock := Some(i)), i, PushLocked(e))
    case Signal(target) =>
      var t := Put(s, i, PushSignalled(s.pcs[i].e));
      if target.Some? then Put(t, target.value, Signalled) else t
    case PushFront =>
      var e := s.pcs[i].e;
      Put(s.(q := [e] + s.q, history := s.history + [Pushed(e)]), i, Leaving)
    case PopEnter => Put(s.(lock := Some(i)), i, PopTest)
    case Test => if s.q == [] then Put(s.(lock := None), i, Waiting) else Put(s, i, PopTake)
    case Take => Put(s.(q := s.q[1..], history := s.history + [Popped(s.q[0])]), i, Leaving)
    case WakeUp => Put(s, i, Spurious)
    case Reacquire => Put(s.(lock := Some(i)), i, PopTest)
    case TryPeek(sawEmpty) => if sawEmpty then s else Put(s, i, TryLock)
    case TryEnter => Put(s.(lock := Some(i)), i, TryTest)
    case TryDecide => Put(s, i, if s.q == [] then Leaving else TryTake)
    case ClearEnter => Put(s.(lock := Some(i)), i, ClearLocked)
    case Clear => Put(s.(q := [], history := s.history + [Cleared]), i, Leaving)
    case Release => Put(s.(lock := None), i, Outside)
  }

  // ----- what the history says -----

  /** The stack that a history leaves, if every pop took the element pushed last. */
  function Replay<T(==)>(history: seq<Event<T>>): Option<seq<T>> {
    if history == [] then Some([])
    else
      var n := |history| - 1;
      match Replay(history[..n])
      case None => None
      case Some(q) =>
        match history[n]
        case Pushed(e) => Some([e] + q)
        case Popped(e) => if q != [] && q[0] == e then Some(q[1..]) else None
        case Cleared => Some([])
  }

  function Pushes<T>(history: seq<Event<T>>): multiset<T> {
    if history == [] then multiset{}
    else
      var n := |history| - 1;
      Pushes(history[..n]) + (if history[n].Pushed? then multiset{history[n].e} else multiset{})
  }

  function Pops<T>(history: seq<Event<T>>): multiset<T> {
    if history == [] then multiset{}
    else
      var n := |history| - 1;
      Pops(history[..n]) + (if history[n].Popped? then multiset{history[n].e} else multiset{})
  }

  /** The elements that clearing dropped. */
  function Drops<T(==)>(history: seq<Event<T>>): multiset<T> {
    if history == [] then multiset{}
    else
      var n := |history| - 1;
      Drops(history[..n]) +
      (if history[n].Cleared? && Replay(history[..n]).Some? then multiset(Replay(history[..n]).value) else multiset{})
  }

  /** What the last event of a history adds. */
  lemma LastEvent<T>(history: seq<Event<T>>, before: seq<Event<T>>, event: Event<T>)
    requires history == before + [event]
    ensures Replay(history) ==
      match Replay(before)
      case None => None
      case Some(q) =>
        match event
        case Pushed(e) => Some([e] + q)
        case Popped(e) => if q != [] && q[0] == e then Some(q[1..]) else None
        case Cleared => Some([])
    ensures Pushes(history) == Pushes(before) + if event.Pushed? then multiset{event.e} else multiset{}
    ensures Pops(history) == Pops(before) + if event.Popped? then multiset{event.e} else multiset{}
    ensures Drops(history) == Drops(before) +
      if event.Cleared? && Replay(before).Some? then multiset(Replay(before).value) else multiset{}
  {
    assert history[..|history| - 1] == before;
  }

  lemma NoEvents<T>()
    ensures Replay<T>([]) == Some([]) && Pushes<T>([]) == Pops<T>([]) == Drops<T>([]) == multiset{}
  {
  }

  /** Elements are neither lost nor made up. */
  lemma {:induction false} Conservation<T>(history: seq<Event<T>>)
    requires Replay(history).Some?
    ensures Pushes(history) == Pops(history) + Drops(history) + multiset(Replay(history).value)
    decreases |history|
  {
    hide Pushes, Pops, Drops, Replay;
    if history == [] {
      NoEvents<T>();
    } else {
      var n := |history| - 1;
      LastEvent(history, history[..n], history[n]);
      Conservation(history[..n]);
      var q := Replay(history[..n]).value;
      if history[n].Popped? { assert q == [q[0]] + q[1..]; }
    }
  }

  // ----- the invariant -----

  function Woken<T>(pcs: seq<Pc<T>>): nat {
    if pcs == [] then 0 else Woken(pcs[..|pcs| - 1]) + if pcs[|pcs| - 1].Signalled? then 1 else 0
  }

  lemma {:induction false} WokenAfter<T>(pcs: seq<Pc<T>>, i: nat, pc: Pc<T>)
    requires i < |pcs|
    ensures Woken(pcs[i := pc]) ==
      Woken(pcs) - (if pcs[i].Signalled? then 1 else 0) + if pc.Signalled? then 1 else 0
  {
    var n := |pcs| - 1;
    if i < n {
      WokenAfter(pcs[..n], i, pc);
      assert pcs[i := pc][..n] == pcs[..n][i := pc];
    } else {
      assert pcs[i := pc][..n] == pcs[..n];
    }
  }

  /** The thread that holds the lock has signalled for an element that it has not added yet. */
  function Announced<T>(s: State<T>): nat {
    if s.lock.Some? && s.lock.value < |s.pcs| && s.pcs[s.lock.value].PushSignalled? then 1 else 0
  }

  /** The thread that holds the lock will take an element if there is one. */
  function Claimed<T>(s: State<T>): nat {
    if s.lock.Some? && s.lock.value < |s.pcs| && (s.pcs[s.lock.value].PopTest? || s.pcs[s.lock.value].PopTake?) then 1
    else 0
  }

  ghost predicate Exclusive<T>(s: State<T>) {
    forall i :: 0 <= i < |s.pcs| ==> (s.pcs[i].Holds() <==> s.lock == Some(i))
  }

  ghost predicate TakersHaveElements<T>(s: State<T>) {
    forall i :: 0 <= i < |s.pcs| && (s.pcs[i].PopTake? || s.pcs[i].TryTake?) ==> s.q != []
  }

  ghost predicate WakeupsSuffice<T>(s: State<T>) {
    SomeoneWaits(s.pcs) ==> |s.q| + Announced(s) <= Woken(s.pcs) + Claimed(s)
  }

  ghost predicate Inv<T(!new)>(s: State<T>) {
    Exclusive(s) && TakersHaveElements(s) && WakeupsSuffice(s) && Replay(s.history) == Some(s.q)
  }

  lemma InitialInv<T(!new)>(s: State<T>)
    requires Initial(s)
    ensures Inv(s)
  {
  }

  lemma StepKeepsExclusive<T(!new)>(s: State<T>, i: nat, a: Action<T>)
    requires Exclusive(s) && TakersHaveElements(s) && Enabled(s, i, a)
    ensures a.Take? ==> s.q != []
    ensures Exclusive(Apply(s, i, a)) && TakersHaveElements(Apply(s, i, a))
  {
  }

  lemma StepKeepsWakeups<T(!new)>(s: State<T>, i: nat, a: Action<T>)
    requires Exclusive(s) && TakersHaveElements(s) && WakeupsSuffice(s) && Enabled(s, i, a)
    ensures a.Take? ==> s.q != []
    ensures WakeupsSuffice(Apply(s, i, a))
  {
    WokenAfter(s.pcs, i, Apply(s, i, a).pcs[i]);
    if a.Signal? && a.target.Some? {
      WokenAfter(s.pcs[i := PushSignalled(s.pcs[i].e)], a.target.value, Signalled);
    }
  }

  lemma StepKeepsHistory<T(!new)>(s: State<T>, i: nat, a: Action<T>)
    requires Enabled(s, i, a) && (a.Take? ==> s.q != []) && Replay(s.history) == Some(s.q)
    ensures var t := Apply(s, i, a); Replay(t.history) == Some(t.q)
  {
    var t := Apply(s, i, a);
    if t.history != s.history { assert t.history[..|t.history| - 1] == s.history; }
  }

  /** Every step of every thread keeps the invariant, and no thread takes from an empty queue. */
  lemma StepKeepsInv<T(!new)>(s: State<T>, i: nat, a: Action<T>)
    requires Inv(s) && Enabled(s, i, a)
    ensures a.Take? ==> s.q != []
    ensures Inv(Apply(s, i, a))
  {
    hide Enabled, Apply, Exclusive, TakersHaveElements, WakeupsSuffice, Replay;
    StepKeepsExclusive(s, i, a);
    StepKeepsWakeups(s, i, a);
    StepKeepsHistory(s, i, a);
  }

  // ----- runs -----

  /** One step; what taking from an empty queue would lead to is left open. */
  ghost predicate Steps<T(!new)>(s: State<T>, i: nat, a: Action<T>, t: State<T>) {
    Enabled(s, i, a) && ((a.Take? ==> s.q != []) ==> t == Apply(s, i, a))
  }

  /** The states of a run in which thread `moves[k].0` takes step `moves[k].1`. */
  ghost predicate Run<T(!new)>(run: seq<State<T>>, moves: seq<(nat, Action<T>)>) {
    |run| == |moves| + 1 && Initial(run[0]) &&
    forall k :: 0 <= k < |moves| ==> Steps(run[k], moves[k].0, moves[k].1, run[k + 1])
  }

  lemma {:induction false} RunKeepsInv<T(!new)>(run: seq<State<T>>, moves: seq<(nat, Action<T>)>, k: nat)
    requires Run(run, moves) && k < |run|
    ensures Inv(run[k])
  {
    hide Inv, Enabled, Apply;
    if k == 0 {
      InitialInv(run[0]);
    } else {
      RunKeepsInv(run, moves, k - 1);
      assert Steps(run[k - 1], moves[k - 1].0, moves[k - 1].1, run[k]);
      StepKeepsInv(run[k - 1], moves[k - 1].0, moves[k - 1].1);
    }
  }

  /** In every run an element that is taken is there, whatever the check without the lock saw. */
  lemma NeverTakesFromEmpty<T(!new)>(run: seq<State<T>>, moves: seq<(nat, Action<T>)>, k: nat)
    requires Run(run, moves) && k < |moves| && moves[k].1.Take?
    ensures run[k].q != [] && run[k + 1].q == run[k].q[1..]
  {
    hide Inv, Enabled, Apply;
    RunKeepsInv(run, moves, k);
    assert Steps(run[k], moves[k].0, moves[k].1, run[k + 1]);
    StepKeepsInv(run[k], moves[k].0, moves[k].1);
    TakeTakes(run[k], moves[k].0);
  }

  lemma TakeTakes<T(!new)>(s: State<T>, i: nat)
    requires Enabled(s, i, Take) && s.q != []
    ensures Apply(s, i, Take).q == s.q[1..]
  {
  }

  /**
   * In every run the pops take the elements in the order of a stack, and what was pushed is what was popped, what is
   * queued and what clearing dropped.
   */
  lemma NothingLost<T(!new)>(run: seq<State<T>>, moves: seq<(nat, Action<T>)>, k: nat)
    requires Run(run, moves) && k < |run|
    ensures var s := run[k];
      Replay(s.history) == Some(s.q) &&
      Pushes(s.history) == Pops(s.history) + Drops(s.history) + multiset(s.q)
  {
    RunKeepsInv(run, moves, k);
    Conservation(run[k].history);
  }

  /**
   * No wakeup is lost: in every run, whenever the lock is free and a thread waits, each queued element has a thread that
   * was signalled and can go on; when none was signalled the queue is empty.
   */
  lemma NoLostWakeup<T(!new)>(run: seq<State<T>>, moves: seq<(nat, Action<T>)>, k: nat)
    requires Run(run, moves) && k < |run| && run[k].lock.None? && SomeoneWaits(run[k].pcs)
    ensures |run[k].q| <= Woken(run[k].pcs)
    ensures run[k].q != [] ==> exists i :: 0 <= i < |run[k].pcs| && run[k].pcs[i].Signalled? && Enabled(run[k], i, Reacquire)
  {
    RunKeepsInv(run, moves, k);
    if run[k].q != [] {
      var i := SomeoneWoken(run[k].pcs);
      assert Enabled(run[k], i, Reacquire);
    }
  }

  lemma {:induction false} SomeoneWoken<T>(pcs: seq<Pc<T>>) returns (i: nat)
    requires Woken(pcs) > 0
    ensures i < |pcs| && pcs[i].Signalled?
  {
    var n := |pcs| - 1;
    if pcs[n].Signalled? { i := n; } else { i := SomeoneWoken(pcs[..n]); }
  }

  // ----- what the moves of a run do, said without the history -----

  /** Thread `i` entered `push` at `m` with the element `e`, and up to `k` it has only signalled since. */
  ghost predicate Entered<T(!new)>(moves: seq<(nat, Action<T>)>, m: nat, k: nat, i: nat, e: T) {
    m < k <= |moves| && moves[m] == (i, PushEnter(e)) && forall j :: m < j < k && moves[j].0 == i ==> moves[j].1.Signal?
  }

  predicate Pushing<T>(pc: Pc<T>) { pc.PushLocked? || pc.PushSignalled? }

  /** A step of another thread leaves a thread alone, but for the signal that wakes it. */
  lemma OthersStay<T(!new)>(s: State<T>, i: nat, a: Action<T>, j: nat)
    requires Enabled(s, i, a) && (a.Take? ==> s.q != []) && j < |s.pcs| && j != i
    ensures var t := Apply(s, i, a); |t.pcs| == |s.pcs| && t.pcs[j] == if a == Signal(Some(j)) then Signalled else s.pcs[j]
    ensures a == Signal(Some(j)) ==> s.pcs[j].Waiting?
  {
  }

  /** How a thread comes to hold an element that it pushes. */
  lemma PushingStep<T(!new)>(s: State<T>, i: nat, a: Action<T>)
    requires Enabled(s, i, a) && (a.Take? ==> s.q != [])
    ensures var t := Apply(s, i, a);
      |t.pcs| == |s.pcs| && (Pushing(t.pcs[i]) ==>
      (a.PushEnter? && t.pcs[i].e == a.e) || (a.Signal? && s.pcs[i].PushLocked? && t.pcs[i].e == s.pcs[i].e))
  {
  }

  /** The step from state `k` is a step of `Apply`. */
  lemma StepOf<T(!new)>(run: seq<State<T>>, moves: seq<(nat, Action<T>)>, k: nat)
    requires Run(run, moves) && k < |moves|
    ensures var (i, a) := moves[k];
      Enabled(run[k], i, a) && (a.Take? ==> run[k].q != []) && run[k + 1] == Apply(run[k], i, a) && Inv(run[k])
  {
    hide Inv, Enabled, Apply;
    RunKeepsInv(run, moves, k);
    assert Steps(run[k], moves[k].0, moves[k].1, run[k + 1]);
    StepKeepsInv(run[k], moves[k].0, moves[k].1);
  }

  lemma ThreadsStay<T(!new)>(run: seq<State<T>>, moves: seq<(nat, Action<T>)>, k: nat)
    requires Run(run, moves) && k < |run|
    ensures |run[k].pcs| == |run[0].pcs|
  {
    hide Inv, Enabled, Apply;
    if k > 0 {
      ThreadsStay(run, moves, k - 1);
      StepOf(run, moves, k - 1);
      PushingStep(run[k - 1], moves[k - 1].0, moves[k - 1].1);
    }
  }

  lemma {:induction false} PushingSince<T(!new)>(run: seq<State<T>>, moves: seq<(nat, Action<T>)>, k: nat, i: nat) returns (m: nat)
    requires Run(run, moves) && k < |run| && i < |run[k].pcs| && Pushing(run[k].pcs[i])
    ensures Entered(moves, m, k, i, run[k].pcs[i].e)
  {
    hide Inv, Enabled, Apply;
    m := 0;
    if k > 0 {
      StepOf(run, moves, k - 1);
      var (j, a) := moves[k - 1];
      PushingStep(run[k - 1], j, a);
      if j == i && a.PushEnter? {
        m := k - 1;
      } else {
        if j != i { OthersStay(run[k - 1], j, a, i); }
        m := PushingSince(run, moves, k - 1, i);
      }
    }
  }

  /** What a step does to the queue. */
  lemma QueueAfter<T(!new)>(s: State<T>, i: nat, a: Action<T>)
    requires Enabled(s, i, a) && (a.Take? ==> s.q != [])
    ensures var t := Apply(s, i, a);
      match a
      case PushFront => s.pcs[i].PushSignalled? && t.q == [s.pcs[i].e] + s.q && t.history == s.history + [Pushed(s.pcs[i].e)]
      case Take => t.q == s.q[1..] && t.history == s.history + [Popped(s.q[0])]
      case Clear => t.q == [] && t.history == s.history + [Cleared]
      case _ => t.q == s.q && t.history == s.history
  {
  }

  /**
   * In every run a push adds, in front, the element with which its thread entered `push`; a take drops the front, a clear
   * leaves nothing, and all other moves leave the queue as it is.
   */
  lemma MoveOnQueue<T(!new)>(run: seq<State<T>>, moves: seq<(nat, Action<T>)>, k: nat)
    requires Run(run, moves) && k < |moves|
    ensures match moves[k].1
      case PushFront => exists m, e :: Entered(moves, m, k, moves[k].0, e) && run[k + 1].q == [e] + run[k].q
      case Take => run[k].q != [] && run[k + 1].q == run[k].q[1..]
      case Clear => run[k + 1].q == []
      case _ => run[k + 1].q == run[k].q
  {
    hide Inv, Enabled, Apply;
    StepOf(run, moves, k);
    var (i, a) := moves[k];
    QueueAfter(run[k], i, a);
    if a.PushFront? {
      ThreadOf(run[k], i, a);
      var m := PushingSince(run, moves, k, i);
    }
  }

  lemma ThreadOf<T(!new)>(s: State<T>, i: nat, a: Action<T>)
    requires Enabled(s, i, a)
    ensures i < |s.pcs|
  {
  }

  /** The element of the latest entry into `push` of thread `i`. */
  function LatestEntry<T>(moves: seq<(nat, Action<T>)>, i: nat): Option<T> {
    if moves == [] then None
    else
      var n := |moves| - 1;
      if moves[n].0 == i && moves[n].1.PushEnter? then Some(moves[n].1.e) else LatestEntry(moves[..n], i)
  }

  lemma {:induction false} EnteredIsLatest<T(!new)>(moves: seq<(nat, Action<T>)>, m: nat, k: nat, i: nat, e: T)
    requires Entered(moves, m, k, i, e)
    ensures LatestEntry(moves[..k], i) == Some(e)
    decreases k
  {
    assert moves[..k][..k - 1] == moves[..k - 1];
    if m < k - 1 { EnteredIsLatest(moves, m, k - 1, i, e); }
  }

  /** What the first `k` moves of a run did to the queue. */
  function Events<T>(run: seq<State<T>>, moves: seq<(nat, Action<T>)>, k: nat): seq<Event<T>>
    requires k <= |moves| && k < |run|
  {
    if k == 0 then []
    else
      var q, (i, a) := run[k - 1].q, moves[k - 1];
      Events(run, moves, k - 1) +
      if a.PushFront? && LatestEntry(moves[..k - 1], i).Some? then [Pushed(LatestEntry(moves[..k - 1], i).value)]
      else if a.Take? && q != [] then [Popped(q[0])]
      else if a.Clear? then [Cleared]
      else []
  }

  /** The history is the list of the completed pushes, with the elements they were called with, of the takes and of the clears. */
  lemma {:induction false} HistoryIsEvents<T(!new)>(run: seq<State<T>>, moves: seq<(nat, Action<T>)>, k: nat)
    requires Run(run, moves) && k < |run|
    ensures run[k].history == Events(run, moves, k)
  {
    hide Inv, Enabled, Apply;
    if k > 0 {
      HistoryIsEvents(run, moves, k - 1);
      StepOf(run, moves, k - 1);
      var (i, a) := moves[k - 1];
      QueueAfter(run[k - 1], i, a);
      if a.PushFront? {
        ThreadOf(run[k - 1], i, a);
        var m := PushingSince(run, moves, k - 1, i);
        EnteredIsLatest(moves, m, k - 1, i, run[k - 1].pcs[i].e);
      }
    }
  }

  function PushedBy<T>(moves: seq<(nat, Action<T>)>): multiset<T> {
    if moves == [] then multiset{}
    else
      var n := |moves| - 1;
      var latest := LatestEntry(moves[..n], moves[n].0);
      PushedBy(moves[..n]) + if moves[n].1.PushFront? && latest.Some? then multiset{latest.value} else multiset{}
  }

  /** What the takes found in front of the queue. */
  function TakenBy<T>(run: seq<State<T>>, moves: seq<(nat, Action<T>)>, k: nat): multiset<T>
    requires k <= |moves| && k < |run|
  {
    if k == 0 then multiset{}
    else
      TakenBy(run, moves, k - 1) +
      if moves[k - 1].1.Take? && run[k - 1].q != [] then multiset{run[k - 1].q[0]} else multiset{}
  }

  /** What the clears found in the queue. */
  function ClearedBy<T>(run: seq<State<T>>, moves: seq<(nat, Action<T>)>, k: nat): multiset<T>
    requires k <= |moves| && k < |run|
  {
    if k == 0 then multiset{}
    else ClearedBy(run, moves, k - 1) + if moves[k - 1].1.Clear? then multiset(run[k - 1].q) else multiset{}
  }

  lemma PushedByOneMore<T>(moves: seq<(nat, Action<T>)>, k: nat)
    requires k < |moves|
    ensures var latest := LatestEntry(moves[..k], moves[k].0);
      PushedBy(moves[..k + 1]) ==
      PushedBy(moves[..k]) + if moves[k].1.PushFront? && latest.Some? then multiset{latest.value} else multiset{}
  {
    assert moves[..k + 1][..k] == moves[..k];
  }

  /** What is in the balance after `k` moves. */
  ghost predicate Balanced<T(!new)>(run: seq<State<T>>, moves: seq<(nat, Action<T>)>, k: nat) {
    k <= |moves| && k < |run| &&
    PushedBy(moves[..k]) == TakenBy(run, moves, k) + ClearedBy(run, moves, k) + multiset(run[k].q)
  }

  lemma PushBalances<T(!new)>(run: seq<State<T>>, moves: seq<(nat, Action<T>)>, k: nat, e: T)
    requires k < |moves| && k + 1 < |run| && Balanced(run, moves, k) && moves[k].1.PushFront?
    requires LatestEntry(moves[..k], moves[k].0) == Some(e) && run[k + 1].q == [e] + run[k].q
    ensures Balanced(run, moves, k + 1)
  {
    hide LatestEntry, PushedBy;
    PushedByOneMore(moves, k);
  }

  lemma TakeBalances<T(!new)>(run: seq<State<T>>, moves: seq<(nat, Action<T>)>, k: nat)
    requires k < |moves| && k + 1 < |run| && Balanced(run, moves, k) && moves[k].1.Take?
    requires run[k].q != [] && run[k + 1].q == run[k].q[1..]
    ensures Balanced(run, moves, k + 1)
  {
    hide LatestEntry, PushedBy;
    PushedByOneMore(moves, k);
    assert run[k].q == [run[k].q[0]] + run[k + 1].q;
  }

  lemma OtherBalances<T(!new)>(run: seq<State<T>>, moves: seq<(nat, Action<T>)>, k: nat)
    requires k < |moves| && k + 1 < |run| && Balanced(run, moves, k) && !moves[k].1.PushFront? && !moves[k].1.Take?
    requires run[k + 1].q == if moves[k].1.Clear? then [] else run[k].q
    ensures Balanced(run, moves, k + 1)
  {
    hide LatestEntry, PushedBy;
    PushedByOneMore(moves, k);
  }

  /**
   * In every run the elements of all completed pushes are those that were taken, those that clearing dropped and those
   * still in the queue.
   */
  lemma {:induction false} PushesAreConserved<T(!new)>(run: seq<State<T>>, moves: seq<(nat, Action<T>)>, k: nat)
    requires Run(run, moves) && k < |run|
    ensures PushedBy(moves[..k]) == TakenBy(run, moves, k) + ClearedBy(run, moves, k) + multiset(run[k].q)
  {
    hide PushedBy, TakenBy, ClearedBy, Steps;
    if k == 0 {
      NoMoves(run, moves);
    } else {
      PushesAreConserved(run, moves, k - 1);
      MoveOnQueue(run, moves, k - 1);
      var (i, a) := moves[k - 1];
      if a.PushFront? {
        var m, e :| Entered(moves, m, k - 1, i, e) && run[k - 1 + 1].q == [e] + run[k - 1].q;
        EnteredIsLatest(moves, m, k - 1, i, e);
        PushBalances(run, moves, k - 1, e);
      } else if a.Take? {
        TakeBalances(run, moves, k - 1);
      } else {
        OtherBalances(run, moves, k - 1);
      }
    }
  }

  lemma NoMoves<T(!new)>(run: seq<State<T>>, moves: seq<(nat, Action<T>)>)
    requires Run(run, moves)
    ensures Balanced(run, moves, 0)
  {
    hide Steps;
  }

  // ----- mutual exclusion over a run -----

  /** Thread `i` makes no move from `k` up to `j`. */
  ghost predicate Idle<T(!new)>(moves: seq<(nat, Action<T>)>, k: nat, j: nat, i: nat) {
    k <= j <= |moves| && forall l :: k <= l < j ==> moves[l].0 != i
  }

  lemma LockKeepsQueue<T(!new)>(s: State<T>, i: nat, a: Action<T>, j: nat)
    requires Exclusive(s) && Enabled(s, i, a) && (a.Take? ==> s.q != []) && j < |s.pcs| && s.pcs[j].Holds() && j != i
    ensures var t := Apply(s, i, a); t.q == s.q && |t.pcs| == |s.pcs| && t.pcs[j] == s.pcs[j]
  {
  }

  /** While a thread holds the lock and makes no move, nothing changes the queue. */
  lemma {:induction false} HolderIsAlone<T(!new)>(run: seq<State<T>>, moves: seq<(nat, Action<T>)>, k: nat, j: nat, i: nat)
    requires Run(run, moves) && Idle(moves, k, j, i) && i < |run[k].pcs| && run[k].pcs[i].Holds()
    ensures |run[j].pcs| == |run[k].pcs| && run[j].pcs[i] == run[k].pcs[i] && run[j].q == run[k].q
    decreases j
  {
    hide Enabled, Apply, TakersHaveElements, WakeupsSuffice;
    if j > k {
      HolderIsAlone(run, moves, k, j - 1, i);
      StepOf(run, moves, j - 1);
      LockKeepsQueue(run[j - 1], moves[j - 1].0, moves[j - 1].1, i);
    }
  }

  // ----- waiting and waking -----

  /** Nothing has happened to thread `i` between `m` and `k`: it made no move and was not signalled. */
  ghost predicate Quiet<T(!new)>(moves: seq<(nat, Action<T>)>, m: nat, k: nat, i: nat) {
    m < k <= |moves| && forall j :: m < j < k ==> moves[j].0 != i && moves[j].1 != Signal(Some(i))
  }

  lemma OwnStep<T(!new)>(s: State<T>, i: nat, a: Action<T>)
    requires Enabled(s, i, a) && (a.Take? ==> s.q != [])
    ensures var t := Apply(s, i, a);
      |t.pcs| == |s.pcs| && (t.pcs[i].Waiting? ==> a.Test? && s.q == []) && !t.pcs[i].Signalled?
  {
  }

  /** A thread that counts as signalled was sent a signal, and has not moved since. */
  lemma {:induction false} SignalledSince<T(!new)>(run: seq<State<T>>, moves: seq<(nat, Action<T>)>, k: nat, i: nat) returns (m: nat)
    requires Run(run, moves) && k < |run| && i < |run[k].pcs| && run[k].pcs[i].Signalled?
    ensures Quiet(moves, m, k, i) && moves[m].1 == Signal(Some(i))
  {
    hide Inv, Enabled, Apply;
    m := 0;
    if k > 0 {
      StepOf(run, moves, k - 1);
      var (j, a) := moves[k - 1];
      OwnStep(run[k - 1], j, a);
      if j != i { OthersStay(run[k - 1], j, a, i); }
      if a == Signal(Some(i)) {
        m := k - 1;
      } else {
        m := SignalledSince(run, moves, k - 1, i);
      }
    }
  }

  /** A thread that waits has found the queue empty, and has got no signal since. */
  lemma {:induction false} WaitingSince<T(!new)>(run: seq<State<T>>, moves: seq<(nat, Action<T>)>, k: nat, i: nat) returns (m: nat)
    requires Run(run, moves) && k < |run| && i < |run[k].pcs| && run[k].pcs[i].Waiting?
    ensures Quiet(moves, m, k, i) && moves[m] == (i, Test) && run[m].q == []
  {
    hide Inv, Enabled, Apply;
    m := 0;
    if k > 0 {
      StepOf(run, moves, k - 1);
      var (j, a) := moves[k - 1];
      OwnStep(run[k - 1], j, a);
      if j == i {
        m := k - 1;
      } else {
        OthersStay(run[k - 1], j, a, i);
        m := WaitingSince(run, moves, k - 1, i);
      }
    }
  }

  // ----- threads follow the code of the operations -----

  /** The moves that begin an operation. */
  predicate Begins<T>(a: Action<T>) { a.PushEnter? || a.PopEnter? || a.TryPeek? || a.ClearEnter? }

  /** In the code `b` comes after `a`, which found the queue empty or not. */
  predicate Follows<T>(a: Action<T>, empty: bool, b: Action<T>) {
    match a
    case PushEnter(_) => b.Signal?
    case Signal(_) => b.PushFront?
    case PopEnter => b.Test?
    case Test => if empty then b.WakeUp? || b.Reacquire? else b.Take?
    case WakeUp => b.Reacquire?
    case Reacquire => b.Test?
    case TryPeek(sawEmpty) => if sawEmpty then Begins(b) else b.TryEnter?
    case TryEnter => b.TryDecide?
    case TryDecide => if empty then b.Release? else b.Take?
    case ClearEnter => b.Clear?
    case Release => Begins(b)
    case _ => b.Release?
  }

  /** The signal that reached thread `i` between `k` and `j`, if one did. */
  ghost predicate GotSignal<T(!new)>(moves: seq<(nat, Action<T>)>, k: nat, j: nat, i: nat) {
    exists l :: k <= l < j <= |moves| && moves[l].1 == Signal(Some(i))
  }

  lemma {:induction false} StaysPut<T(!new)>(run: seq<State<T>>, moves: seq<(nat, Action<T>)>, k: nat, j: nat, i: nat)
    requires Run(run, moves) && Idle(moves, k, j, i) && i < |run[k].pcs|
    ensures |run[j].pcs| == |run[k].pcs|
    ensures run[j].pcs[i] == run[k].pcs[i] ||
      (run[k].pcs[i].Waiting? && run[j].pcs[i].Signalled? && GotSignal(moves, k, j, i))
    decreases j
  {
    hide Inv, Enabled, Apply;
    if j > k {
      StaysPut(run, moves, k, j - 1, i);
      StepOf(run, moves, j - 1);
      OthersStay(run[j - 1], moves[j - 1].0, moves[j - 1].1, i);
      PushingStep(run[j - 1], moves[j - 1].0, moves[j - 1].1);
    }
  }

  lemma NextOwn<T(!new)>(s: State<T>, i: nat, a: Action<T>, t: State<T>, b: Action<T>)
    requires Enabled(s, i, a) && (a.Take? ==> s.q != []) && i < |t.pcs| && Enabled(t, i, b)
    requires var pc := Apply(s, i, a).pcs[i]; t.pcs[i] == pc || (pc.Waiting? && t.pcs[i].Signalled?)
    ensures Follows(a, s.q == [], b)
    ensures a.Test? && b.Reacquire? ==> t.pcs[i].Signalled? && Apply(s, i, a).pcs[i].Waiting?
  {
  }

  /** In every run two successive moves of a thread follow the code; only a signal ends a wait without a wakeup. */
  lemma ThreadFollowsCode<T(!new)>(run: seq<State<T>>, moves: seq<(nat, Action<T>)>, k: nat, j: nat, i: nat)
    requires Run(run, moves) && k < j < |moves| && moves[k].0 == moves[j].0 == i && Idle(moves, k + 1, j, i)
    ensures Follows(moves[k].1, run[k].q == [], moves[j].1)
    ensures moves[k].1.Test? && moves[j].1.Reacquire? ==> GotSignal(moves, k + 1, j, i)
  {
    hide Inv, Enabled, Apply, Follows;
    StepOf(run, moves, k);
    StepOf(run, moves, j);
    ThreadOf(run[k], i, moves[k].1);
    PushingStep(run[k], i, moves[k].1);
    StaysPut(run, moves, k + 1, j, i);
    NextOwn(run[k], i, moves[k].1, run[j], moves[j].1);
  }

  /** The first move of a thread begins an operation. */
  lemma FirstMove<T(!new)>(run: seq<State<T>>, moves: seq<(nat, Action<T>)>, j: nat, i: nat)
    requires Run(run, moves) && j < |moves| && moves[j].0 == i && Idle(moves, 0, j, i)
    ensures Begins(moves[j].1)
  {
    hide Inv, Apply;
    StepOf(run, moves, j);
    ThreadOf(run[j], i, moves[j].1);
    ThreadsStay(run, moves, j);
    StaysPut(run, moves, 0, j, i);
  }

  /**
   * A thread that finds the queue filled takes its front element with its next move, and no other thread changes the
   * queue before.
   */
  lemma TestDecides<T(!new)>(run: seq<State<T>>, moves: seq<(nat, Action<T>)>, k: nat, j: nat, i: nat)
    requires Run(run, moves) && k < j < |moves| && moves[k].0 == moves[j].0 == i && Idle(moves, k + 1, j, i)
    requires (moves[k].1.TryDecide? || moves[k].1.Test?) && run[k].q != []
    ensures moves[j].1.Take? && run[j].q == run[k].q && run[j + 1].q == run[k].q[1..]
  {
    hide Inv, Enabled, Apply;
    StepOf(run, moves, k);
    DecideHolds(run[k], i, moves[k].1);
    HolderIsAlone(run, moves, k + 1, j, i);
    ThreadFollowsCode(run, moves, k, j, i);
    StepOf(run, moves, j);
    QueueAfter(run[j], i, moves[j].1);
  }

  lemma DecideHolds<T(!new)>(s: State<T>, i: nat, a: Action<T>)
    requires Enabled(s, i, a) && (a.TryDecide? || (a.Test? && s.q != []))
    ensures var t := Apply(s, i, a); i < |t.pcs| == |s.pcs| && t.pcs[i].Holds() && t.q == s.q
  {
  }

  // ----- no deadlock -----

  /** The move that a thread can make by itself. */
  function NextMove<T>(s: State<T>, i: nat, e: T): Action<T>
    requires i < |s.pcs|
  {
    match s.pcs[i]
    case Outside => PushEnter(e)
    case PushLocked(_) => if SomeoneWaits(s.pcs) then Signal(Some(FirstWaiting(s.pcs))) else Signal(None)
    case PushSignalled(_) => PushFront
    case PopTest => Test
    case Waiting => WakeUp
    case Signalled => Reacquire
    case Spurious => Reacquire
    case PopTake => Take
    case TryLock => TryEnter
    case TryTest => TryDecide
    case TryTake => Take
    case ClearLocked => Clear
    case Leaving => Release
  }

  function FirstWaiting<T>(pcs: seq<Pc<T>>): (i: nat)
    requires SomeoneWaits(pcs)
    ensures i < |pcs| && pcs[i].Waiting?
  {
    if pcs[0].Waiting? then 0
    else
      assert SomeoneWaits(pcs[1..]) by { SomeoneBehind(pcs); }
      1 + FirstWaiting(pcs[1..])
  }

  lemma SomeoneBehind<T>(pcs: seq<Pc<T>>)
    requires SomeoneWaits(pcs) && !pcs[0].Waiting?
    ensures SomeoneWaits(pcs[1..])
  {
    var i :| 0 <= i < |pcs| && pcs[i].Waiting?;
    assert pcs[1..][i - 1] == pcs[i];
  }

  /**
   * No run gets stuck: the thread that holds the lock can go on, and when nobody holds it every thread can. A holder needs
   * no other thread for that.
   */
  lemma NeverStuck<T(!new)>(run: seq<State<T>>, moves: seq<(nat, Action<T>)>, k: nat, i: nat, e: T)
    requires Run(run, moves) && k < |run| && i < |run[k].pcs|
    requires run[k].lock.None? || run[k].lock == Some(i)
    ensures Enabled(run[k], i, NextMove(run[k], i, e))
    ensures run[k].lock.None? && run[k].pcs[i].Outside? ==>
      Enabled(run[k], i, PopEnter) && Enabled(run[k], i, TryPeek(true)) && Enabled(run[k], i, TryPeek(false)) &&
      Enabled(run[k], i, ClearEnter)
  {
    RunKeepsInv(run, moves, k);
  }
}
