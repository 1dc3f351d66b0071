// The parallel job runner: which jobs run, and in which order their messages are printed.

module ParallelJobs {
  /** The jobs `from`, …, `to - 1`. */
  function Range(from: nat, to: nat): (s: seq<nat>)
    requires from <= to
    ensures |s| == to - from && forall i :: 0 <= i < |s| ==> s[i] == from + i
  {
    seq(to - from, i requires 0 <= i < to - from => from + i)
  }

  ghost predicate Ascending(s: seq<nat>) { forall i, j :: 0 <= i < j < |s| ==> s[i] < s[j] }

  /** `list.sort()` on job ids. */
  function Insert(s: seq<nat>, x: nat): (r: seq<nat>)
    ensures |r| == |s| + 1 && multiset(r) == multiset(s) + multiset{x}
  {
    if s == [] || x < s[0] then [x] + s
    else
      assert s == [s[0]] + s[1..];
      [s[0]] + Insert(s[1..], x)
  }

  function Sorted(s: seq<nat>): (r: seq<nat>)
    ensures |r| == |s| && multiset(r) == multiset(s)
  {
    if s == [] then []
    else
      assert s == s[..|s| - 1] + [s[|s| - 1]];
      Insert(Sorted(s[..|s| - 1]), s[|s| - 1])
  }

  /** The jobs that did, or did not, complete in a round. */
  function Keep(s: seq<nat>, finished: set<nat>, completed: bool): (r: seq<nat>)
    ensures |r| <= |s|
  {
    if s == [] then []
    else
      var n := |s| - 1;
      var rest := Keep(s[..n], finished, completed);
      if (s[n] in finished) == completed then rest + [s[n]] else rest
  }

  lemma {:induction false} KeepHolds(s: seq<nat>, finished: set<nat>, completed: bool)
    ensures forall x :: multiset(Keep(s, finished, completed))[x] == (if (x in finished) == completed then multiset(s)[x] else 0)
  {
    if s != [] {
      var n := |s| - 1;
      KeepHolds(s[..n], finished, completed);
      assert s == s[..n] + [s[n]];
    }
  }

  /** The places `at` of `s`, in order, hold `r`, and they are all the places whose job is not in `gone`. */
  ghost predicate Leaves(s: seq<nat>, gone: set<nat>, r: seq<nat>, at: seq<nat>) {
    |at| == |r| && Ascending(at) && (forall i :: 0 <= i < |at| ==> at[i] < |s| && s[at[i]] == r[i]) &&
    forall k: nat :: k < |s| ==> (k in at <==> s[k] !in gone)
  }

  lemma {:induction false} KeepLeaves(s: seq<nat>, finished: set<nat>) returns (at: seq<nat>)
    ensures Leaves(s, finished, Keep(s, finished, false), at)
  {
    hide Leaves;
    if s == [] {
      at := [];
      NothingLeft(finished);
    } else {
      var n := |s| - 1;
      at := KeepLeaves(s[..n], finished);
      assert s == s[..n] + [s[n]];
      LeavesMore(s[..n], finished, Keep(s[..n], finished, false), at, s[n]);
      if s[n] !in finished { at := at + [n]; }
    }
  }

  lemma NothingLeft(gone: set<nat>)
    ensures Leaves([], gone, [], [])
  {
  }

  lemma LeavesMore(s: seq<nat>, gone: set<nat>, r: seq<nat>, at: seq<nat>, x: nat)
    requires Leaves(s, gone, r, at)
    ensures if x in gone then Leaves(s + [x], gone, r, at) else Leaves(s + [x], gone, r + [x], at + [|s|])
  {
    hide Ascending;
    var n := |s|;
    PlacesGrow(at, n);
    if x in gone {
      assert Leaves(s + [x], gone, r, at);
    } else {
      var all, at1 := s + [x], at + [n];
      assert all[n] == x && n in at1;
      forall k: nat | k < |all|
        ensures k in at1 <==> all[k] !in gone
      {
        assert k in at1 <==> k in at || k == n;
      }
    }
  }

  lemma PlacesGrow(at: seq<nat>, n: nat)
    requires (forall i :: 0 <= i < |at| ==> at[i] < n) && Ascending(at)
    ensures Ascending(at + [n]) && n !in at
  {
  }

  /** Of the running jobs those in `finished` move to the jobs done, and the others go on in their order. */
  ghost predicate Moved(running: seq<nat>, done: seq<nat>, finished: set<nat>, running1: seq<nat>, done1: seq<nat>) {
    (exists at :: Leaves(running, finished, running1, at)) &&
    forall x :: multiset(done1)[x] == multiset(done)[x] + (if x in finished then multiset(running)[x] else 0)
  }

  lemma KeepMoves(running: seq<nat>, done: seq<nat>, finished: set<nat>)
    ensures Moved(running, done, finished, Keep(running, finished, false), Sorted(done + Keep(running, finished, true)))
  {
    hide Leaves, Keep, Sorted;
    var at := KeepLeaves(running, finished);
    KeepHolds(running, finished, true);
    Joined(done, Keep(running, finished, true));
  }

  lemma Joined(done: seq<nat>, more: seq<nat>)
    ensures forall x :: multiset(Sorted(done + more))[x] == multiset(done)[x] + multiset(more)[x]
  {
    assert multiset(done + more) == multiset(done) + multiset(more);
  }

  // ----- runs -----

  /** The job lists, the messages printed so far, and whether the run was interrupted. */
  datatype State = State(pending: seq<nat>, running: seq<nat>, done: seq<nat>, printed: seq<nat>, stopped: bool)

  /** A round is one return from the wait for events, with the jobs that turn out to have completed. */
  datatype Event = Started | Printed | Round(finished: set<nat>) | Interrupted

  predicate CanStart(s: State, limit: int) { !s.stopped && s.pending != [] && |s.running| < limit }

  predicate CanPrint(s: State) { |s.printed| < |s.done| && s.done[|s.printed|] == |s.printed| }

  /** A job starts as soon as it may; messages are printed before the runner waits; an interrupt ends a wait. */
  predicate Allowed(s: State, e: Event, limit: int) {
    match e
    case Started => CanStart(s, limit)
    case Printed => !CanStart(s, limit) && CanPrint(s)
    case _ => !s.stopped && !CanStart(s, limit) && !CanPrint(s) && (s.pending != [] || s.running != [])
  }

  function After(s: State, e: Event, limit: int): State
    requires Allowed(s, e, limit)
  {
    match e
    case Started => s.(running := s.running + [s.pending[0]], pending := s.pending[1..])
    case Printed => s.(printed := s.printed + [s.done[|s.printed|]])
    case Round(finished) =>
      s.(running := Keep(s.running, finished, false), done := Sorted(s.done + Keep(s.running, finished, true)))
    case Interrupted => s.(running := [], done := Sorted(s.done + s.running), stopped := true)
  }

  function Initial(total: nat): State { State(Range(0, total), [], [], [], false) }

  /** The state that a run leads to; None if some event of it was not allowed. */
  function Runs(total: nat, limit: int, trace: seq<Event>): (s: Option<State>) {
    if trace == [] then Some(Initial(total))
    else
      var n := |trace| - 1;
      match Runs(total, limit, trace[..n])
      case None => None
      case Some(s) => if Allowed(s, trace[n], limit) then Some(After(s, trace[n], limit)) else None
  }

  datatype Option<T> = Some(value: T) | None

  /** The rounds of a run, and those of them in which a job completed. */
  function Rounds(trace: seq<Event>): (rounds: seq<set<nat>>) {
    if trace == [] then []
    else
      var n := |trace| - 1;
      Rounds(trace[..n]) + if trace[n].Round? then [trace[n].finished] else []
  }

  /** Some running job completes in the round. */
  ghost predicate Progress(s: State, finished: set<nat>) { exists x :: x in s.running && x in finished }

  ghost function Productive(total: nat, limit: int, trace: seq<Event>): nat {
    if trace == [] then 0
    else
      var n := |trace| - 1;
      Productive(total, limit, trace[..n]) +
      match Runs(total, limit, trace[..n])
      case Some(s) => if trace[n].Round? && Progress(s, trace[n].finished) then 1 else 0
      case None => 0
  }

  lemma OneMore(total: nat, limit: int, trace: seq<Event>, e: Event)
    requires Runs(total, limit, trace).Some? && Allowed(Runs(total, limit, trace).value, e, limit)
    ensures Runs(total, limit, trace + [e]) == Some(After(Runs(total, limit, trace).value, e, limit))
    ensures Rounds(trace + [e]) == Rounds(trace) + if e.Round? then [e.finished] else []
    ensures Productive(total, limit, trace + [e]) == Productive(total, limit, trace) +
      if e.Round? && Progress(Runs(total, limit, trace).value, e.finished) then 1 else 0
  {
    assert (trace + [e])[..|trace|] == trace;
  }

  // ----- what every run keeps -----

  /**
   * Every job is in exactly one place, jobs start in order, no more run than the limit allows, and the messages of
   * jobs 0, 1, … that are done were printed in order, each once.
   */
  ghost predicate Sound(s: State, total: nat, limit: int) {
    |s.pending| <= total && s.pending == Range(total - |s.pending|, total) &&
    multiset(s.running) + multiset(s.done) == multiset(Range(0, total - |s.pending|)) &&
    (s.running == [] || |s.running| <= limit) &&
    Ascending(s.done) && |s.printed| <= |s.done| && s.printed == s.done[..|s.printed|] == Range(0, |s.printed|)
  }

  /** The lists of a sound state hold every job exactly once. */
  lemma EachJobOnce(s: State, total: nat, limit: int)
    requires Sound(s, total, limit)
    ensures multiset(s.pending) + multiset(s.running) + multiset(s.done) == multiset(Range(0, total))
  {
    var started := total - |s.pending|;
    assert Range(0, total) == Range(0, started) + Range(started, total);
  }

  lemma {:induction false} RangeOnce(n: nat)
    ensures forall x: nat :: multiset(Range(0, n))[x] == if x < n then 1 else 0
  {
    if n > 0 {
      RangeOnce(n - 1);
      assert Range(0, n) == Range(0, n - 1) + [n - 1];
    }
  }

  lemma {:induction false} KeepSplits(s: seq<nat>, finished: set<nat>)
    ensures multiset(Keep(s, finished, true)) + multiset(Keep(s, finished, false)) == multiset(s)
    ensures |Keep(s, finished, true)| + |Keep(s, finished, false)| == |s|
  {
    if s != [] {
      var n := |s| - 1;
      KeepSplits(s[..n], finished);
      assert s == s[..n] + [s[n]];
    }
  }

  lemma {:induction false} InsertSorts(s: seq<nat>, x: nat)
    requires Ascending(s) && x !in s
    ensures Ascending(Insert(s, x))
    ensures s != [] && s[0] < x ==> Insert(s, x)[0] == s[0]
  {
    if s != [] && s[0] < x {
      InsertSorts(s[1..], x);
      var r := Insert(s[1..], x);
      assert s[0] < r[0] by { if |s| > 1 && s[1] < x { assert r[0] == s[1]; } }
      AscendingBehind(s[0], r);
    } else if s != [] {
      assert s[0] in s;
      AscendingBehind(x, s);
    }
  }

  lemma AscendingBehind(x: nat, s: seq<nat>)
    requires Ascending(s) && s != [] && x < s[0]
    ensures Ascending([x] + s)
  {
  }

  lemma {:induction false} SortedSorts(s: seq<nat>)
    requires forall x :: multiset(s)[x] <= 1
    ensures Ascending(Sorted(s))
  {
    if s != [] {
      var n := |s| - 1;
      assert s == s[..n] + [s[n]];
      assert forall x :: multiset(s[..n])[x] <= multiset(s)[x];
      assert multiset(s)[s[n]] == multiset(s[..n])[s[n]] + 1;
      SortedSorts(s[..n]);
      assert s[n] !in multiset(Sorted(s[..n]));
      InsertSorts(Sorted(s[..n]), s[n]);
    }
  }

  /** Jobs in ascending order start with those below `from + k` if all of these are among them. */
  lemma {:induction false} FrontOf(s: seq<nat>, from: nat, k: nat)
    requires Ascending(s) && (forall x :: x in s ==> from <= x) && forall x: nat :: from <= x < from + k ==> x in s
    ensures k <= |s| && s[..k] == Range(from, from + k)
  {
    if k > 0 {
      assert from in s;
      var i :| 0 <= i < |s| && s[i] == from;
      assert s[0] in s;
      assert i == 0;
      forall x: nat | from + 1 <= x < from + k
        ensures x in s[1..]
      {
        assert x in s;
      }
      FrontOf(s[1..], from + 1, k - 1);
      assert s[..k] == [s[0]] + s[1..][..k - 1];
    }
  }

  lemma StartKeeps(s: State, total: nat, limit: int)
    requires Sound(s, total, limit) && CanStart(s, limit)
    ensures Sound(After(s, Started, limit), total, limit)
  {
    var started := total - |s.pending|;
    assert s.pending[0] == started;
    assert Range(0, started + 1) == Range(0, started) + [started];
    assert s.pending[1..] == Range(started + 1, total);
  }

  lemma PrintKeeps(s: State, total: nat, limit: int)
    requires Sound(s, total, limit) && Allowed(s, Printed, limit)
    ensures Sound(After(s, Printed, limit), total, limit)
  {
    var k := |s.printed|;
    assert s.done[..k + 1] == s.done[..k] + [s.done[k]];
    assert Range(0, k + 1) == Range(0, k) + [k];
  }

  /** Jobs that move from running to done, sorted in, leave the messages printed so far in front. */
  lemma DoneKeeps(s: State, total: nat, limit: int, left: seq<nat>, more: seq<nat>)
    requires Sound(s, total, limit) && multiset(left) + multiset(more) == multiset(s.running) && |left| <= |s.running|
    ensures Sound(s.(running := left, done := Sorted(s.done + more)), total, limit)
  {
    hide Ascending, Sorted, Range;
    var done := Sorted(s.done + more);
    MovedOnce(s, total, limit, left, more);
    SortedSorts(s.done + more);
    StillInFront(s.done, more, |s.printed|);
    assert multiset(done) == multiset(s.done) + multiset(more);
    assert multiset(left) + multiset(done) == multiset(s.running) + multiset(s.done);
    hide Sound;
    NewDone(s, total, limit, left, done);
  }

  lemma NewDone(s: State, total: nat, limit: int, left: seq<nat>, done: seq<nat>)
    requires Sound(s, total, limit) && multiset(left) + multiset(done) == multiset(s.running) + multiset(s.done)
    requires |left| <= |s.running| && Ascending(done) && |s.printed| <= |done| && done[..|s.printed|] == Range(0, |s.printed|)
    ensures Sound(s.(running := left, done := done), total, limit)
  {
    hide Ascending, Range;
  }

  lemma MovedOnce(s: State, total: nat, limit: int, left: seq<nat>, more: seq<nat>)
    requires Sound(s, total, limit) && multiset(left) + multiset(more) == multiset(s.running)
    ensures forall x :: multiset(s.done + more)[x] <= 1
  {
    var all := multiset(Range(0, total - |s.pending|));
    RangeOnce(total - |s.pending|);
    hide Ascending, Range;
    assert multiset(left) + multiset(s.done + more) == all;
    SmallerPart(multiset(left), multiset(s.done + more), all);
  }

  lemma SmallerPart(a: multiset<nat>, b: multiset<nat>, all: multiset<nat>)
    requires a + b == all && forall x :: all[x] <= 1
    ensures forall x :: b[x] <= 1
  {
    assert forall x :: b[x] <= all[x];
  }

  lemma StillInFront(done: seq<nat>, more: seq<nat>, k: nat)
    requires k <= |done| && done[..k] == Range(0, k) && Ascending(Sorted(done + more))
    ensures k <= |Sorted(done + more)| && Sorted(done + more)[..k] == Range(0, k)
  {
    forall x: nat | x < k
      ensures x in Sorted(done + more)
    {
      assert done[..k][x] == x;
      assert (done + more)[x] == x;
      assert x in multiset(done + more);
    }
    FrontOf(Sorted(done + more), 0, k);
  }

  lemma StoppedKeeps(s: State, total: nat, limit: int)
    requires Sound(s, total, limit)
    ensures Sound(s.(stopped := true), total, limit)
  {
  }

  lemma StepKeeps(s: State, e: Event, total: nat, limit: int)
    requires Sound(s, total, limit) && Allowed(s, e, limit)
    ensures Sound(After(s, e, limit), total, limit)
  {
    hide Sound, Keep, Sorted, CanStart, CanPrint;
    match e
    case Started => StartKeeps(s, total, limit);
    case Printed => PrintKeeps(s, total, limit);
    case Round(finished) =>
      KeepSplits(s.running, finished);
      DoneKeeps(s, total, limit, Keep(s.running, finished, false), Keep(s.running, finished, true));
    case Interrupted =>
      var none: seq<nat> := [];
      assert multiset(none) + multiset(s.running) == multiset(s.running);
      DoneKeeps(s, total, limit, none, s.running);
      StoppedKeeps(s.(running := [], done := Sorted(s.done + s.running)), total, limit);
  }

  /** Whatever jobs complete in whatever order, every state of a run is sound. */
  lemma {:induction false} RunsAreSound(total: nat, limit: int, trace: seq<Event>)
    requires Runs(total, limit, trace).Some?
    ensures Sound(Runs(total, limit, trace).value, total, limit)
  {
    hide Sound, Allowed, After;
    if trace == [] {
      InitialIsSound(total, limit);
    } else {
      var n := |trace| - 1;
      RunsAreSound(total, limit, trace[..n]);
      StepKeeps(Runs(total, limit, trace[..n]).value, trace[n], total, limit);
    }
  }

  lemma PrintedAreDone(total: nat, limit: int, trace: seq<Event>)
    requires Runs(total, limit, trace).Some?
    ensures |Runs(total, limit, trace).value.printed| <= |Runs(total, limit, trace).value.done|
  {
    hide Runs;
    RunsAreSound(total, limit, trace);
  }

  lemma InitialIsSound(total: nat, limit: int)
    ensures Sound(Initial(total), total, limit)
  {
  }

  /** Every round in which a job completes makes progress: there cannot be more of them than jobs. */
  lemma {:induction false} ProgressIsBounded(total: nat, limit: int, trace: seq<Event>)
    requires Runs(total, limit, trace).Some?
    ensures Productive(total, limit, trace) <= |Runs(total, limit, trace).value.done|
  {
    if trace != [] {
      hide Progress;
      var n := |trace| - 1;
      ProgressIsBounded(total, limit, trace[..n]);
      if trace[n].Round? { RoundMoves(Runs(total, limit, trace[..n]).value, trace[n].finished); }
    }
  }

  lemma RoundMoves(s: State, finished: set<nat>)
    ensures var more := Keep(s.running, finished, true);
      |Sorted(s.done + more)| == |s.done| + |more| && (Progress(s, finished) ==> |more| > 0)
  {
    KeepHolds(s.running, finished, true);
    if x :| x in s.running && x in finished {
      assert multiset(s.running)[x] > 0;
      assert multiset(Keep(s.running, finished, true))[x] > 0;
    }
  }

  // ----- where the jobs of a run are -----

  /** The jobs started so far; they start in order, so that these are the jobs below that number. */
  function Starts(trace: seq<Event>): nat {
    if trace == [] then 0 else Starts(trace[..|trace| - 1]) + if trace[|trace| - 1].Started? then 1 else 0
  }

  /** Some round after the start of the job found it completed. */
  ghost predicate Completed(trace: seq<Event>, x: nat) {
    exists r :: 0 <= r < |trace| && trace[r].Round? && x in trace[r].finished && x < Starts(trace[..r])
  }

  lemma CompletedLater(trace: seq<Event>, x: nat)
    requires trace != []
    ensures var n := |trace| - 1;
      Completed(trace, x) <==>
      Completed(trace[..n], x) || (trace[n].Round? && x in trace[n].finished && x < Starts(trace[..n]))
  {
    hide Starts;
    var n := |trace| - 1;
    assert forall r :: 0 <= r < n ==> trace[..n][r] == trace[r] && trace[..n][..r] == trace[..r];
    if Completed(trace[..n], x) {
      var r :| 0 <= r < n && trace[..n][r].Round? && x in trace[..n][r].finished && x < Starts(trace[..n][..r]);
      assert trace[r].Round? && x in trace[r].finished && x < Starts(trace[..r]);
    }
  }

  /** What a round does to one job. */
  lemma RoundOfJob(s: State, finished: set<nat>, x: nat)
    ensures x in Keep(s.running, finished, false) <==> x in s.running && x !in finished
    ensures x in Sorted(s.done + Keep(s.running, finished, true)) <==> x in s.done || (x in s.running && x in finished)
  {
    KeepHolds(s.running, finished, false);
    KeepHolds(s.running, finished, true);
    var more := Keep(s.running, finished, true);
    assert multiset(s.done + more) == multiset(s.done) + multiset(more);
    Members(Keep(s.running, finished, false), x);
    Members(s.running, x);
    Members(Sorted(s.done + more), x);
    Members(s.done, x);
  }

  lemma Members(s: seq<nat>, x: nat)
    ensures x in s <==> multiset(s)[x] > 0
  {
  }

  /**
   * In a run that was not interrupted a job is done exactly if some round after its start found it completed, runs if it
   * was started and none did, and is pending otherwise.
   */
  lemma {:induction false} WhereJobsAre(total: nat, limit: int, trace: seq<Event>, x: nat)
    requires Runs(total, limit, trace).Some? && !Runs(total, limit, trace).value.stopped
    ensures var s := Runs(total, limit, trace).value;
      |s.pending| + Starts(trace) == total && (x in s.done <==> Completed(trace, x)) &&
      (x in s.running <==> x < Starts(trace) && !Completed(trace, x)) &&
      (x in s.pending <==> Starts(trace) <= x < total)
  {
    hide Sound, Completed, Starts, Allowed, After;
    if trace == [] {
      RunsAreSound(total, limit, []);
      PendingIsRest(Initial(total), total, limit, x);
      NeverCompleted(x);
    } else {
      var n := |trace| - 1;
      RunsAreSound(total, limit, trace[..n]);
      RunsAreSound(total, limit, trace);
      JobAfter(Runs(total, limit, trace[..n]).value, trace[n], total, limit, x);
      WhereJobsAre(total, limit, trace[..n], x);
      if Completed(trace[..n], x) { CompletedStarted(trace[..n], x); }
      PendingIsRest(Runs(total, limit, trace).value, total, limit, x);
      CompletedLater(trace, x);
      StartsLater(trace);
    }
  }

  lemma {:induction false} CompletedStarted(trace: seq<Event>, x: nat)
    requires Completed(trace, x)
    ensures x < Starts(trace)
  {
    hide Completed;
    if trace == [] {
      NeverCompleted(x);
    } else {
      CompletedLater(trace, x);
      if Completed(trace[..|trace| - 1], x) { CompletedStarted(trace[..|trace| - 1], x); }
    }
  }

  lemma StartsLater(trace: seq<Event>)
    ensures Starts([]) == 0
    ensures trace != [] ==> Starts(trace) == Starts(trace[..|trace| - 1]) + if trace[|trace| - 1].Started? then 1 else 0
  {
  }

  /** What one event does to one job. */
  lemma JobAfter(s: State, e: Event, total: nat, limit: int, x: nat)
    requires Sound(s, total, limit) && Allowed(s, e, limit) && !After(s, e, limit).stopped
    ensures var t := After(s, e, limit);
      !s.stopped && |t.pending| == |s.pending| - (if e.Started? then 1 else 0) &&
      (x in t.done <==> x in s.done || (e.Round? && x in e.finished && x in s.running)) &&
      (x in t.running <==> (x in s.running && !(e.Round? && x in e.finished)) || (e.Started? && x == total - |s.pending|))
  {
    hide Keep, Sorted, CanPrint;
    match e
    case Started => StartOfJob(s, total, limit, x);
    case Round(finished) => RoundOfJob(s, finished, x);
    case _ =>
  }

  lemma NeverCompleted(x: nat)
    ensures !Completed([], x) && Starts([]) == 0
  {
  }

  lemma StartOfJob(s: State, total: nat, limit: int, x: nat)
    requires Sound(s, total, limit) && CanStart(s, limit)
    ensures s.pending[0] == total - |s.pending|
    ensures x in s.running + [s.pending[0]] <==> x in s.running || x == total - |s.pending|
  {
  }

  lemma PendingIsRest(s: State, total: nat, limit: int, x: nat)
    requires Sound(s, total, limit)
    ensures |s.pending| <= total && (x in s.pending <==> total - |s.pending| <= x < total)
  {
    if total - |s.pending| <= x < total { assert s.pending[x - (total - |s.pending|)] == x; }
  }

  /** Where no job runs, the jobs done are those that were started. */
  lemma DoneIsRange(s: State, total: nat, limit: int)
    requires Sound(s, total, limit) && s.running == []
    ensures s.done == Range(0, total - |s.pending|)
  {
    var started := total - |s.pending|;
    RangeOnce(started);
    assert multiset(s.done) == multiset(Range(0, started));
    assert |s.done| == |multiset(s.done)| == |multiset(Range(0, started))| == started;
    forall x: nat | x < started
      ensures x in s.done
    {
      assert multiset(Range(0, started))[x] == 1;
      assert x in multiset(s.done);
    }
    FrontOf(s.done, 0, started);
    assert s.done[..started] == s.done;
  }

  /** Where no job runs and none of the messages can be printed, all were printed. */
  lemma Drained(s: State, total: nat, limit: int, trace: seq<Event>)
    requires Runs(total, limit, trace) == Some(s) && s.running == [] && !CanPrint(s)
    ensures |s.pending| <= total && s.done == s.printed == Range(0, total - |s.pending|)
  {
    hide Runs;
    RunsAreSound(total, limit, trace);
    DoneIsRange(s, total, limit);
    assert |s.printed| == |s.done|;
    assert s.done[..|s.done|] == s.done;
  }

  // ----- the runner -----

  datatype Ending = Finished | Broken

  class Runner {
    const total: nat
    const limit: int
    var pending: seq<nat>
    var running: seq<nat>
    var done: seq<nat>
    var printed: seq<nat>  // the jobs whose messages were printed, in order
    var maxprinted: nat
    ghost var trace: seq<Event>  // everything that happened
    ghost var stopped: bool

    /** The jobs killed by an interrupt stay in the list of running jobs, but do not run. */
    ghost function Now(): State
      reads this
    {
      State(pending, if stopped then [] else running, done, printed, stopped)
    }

    /** What happened is a run, and it leads to the lists as they are. */
    ghost predicate Valid()
      reads this
    {
      Runs(total, limit, trace) == Some(Now()) && maxprinted == |printed|
    }

    constructor (n: nat, limit: int)
      ensures Valid() && total == n && this.limit == limit && trace == []
    {
      total, this.limit := n, limit;
      pending, running, done, printed, maxprinted := Range(0, n), [], [], [], 0;
      trace, stopped := [], false;
    }

    /** Only events that satisfy `kind` were added. */
    ghost predicate Added(before: seq<Event>, kind: Event -> bool)
      reads this
    {
      before <= trace && forall i :: |before| <= i < |trace| ==> kind(trace[i])
    }

    /** Starts pending jobs while fewer than the limit run. */
    method Spawn()
      requires Valid() && !stopped
      modifies this`pending, this`running, this`trace
      ensures Valid() && !CanStart(Now(), limit)
      ensures Added(old(trace), e => e == Started) && Rounds(trace) == old(Rounds(trace))
      ensures Productive(total, limit, trace) == old(Productive(total, limit, trace))
      ensures |pending| + |running| == old(|pending| + |running|)
    {
      hide Runs, Rounds, Productive;
      while |pending| > 0 && |running| < limit
        invariant Valid() && Added(old(trace), e => e == Started) && Rounds(trace) == old(Rounds(trace))
        invariant Productive(total, limit, trace) == old(Productive(total, limit, trace))
        invariant |pending| + |running| == old(|pending| + |running|)
        decreases |pending|
      {
        OneMore(total, limit, trace, Started);
        running, pending := running + [pending[0]], pending[1..];
        trace := trace + [Started];
      }
    }

    /** Prints the messages of done jobs, in order, up to the first job that is missing. */
    method UpdateStatus()
      requires Valid() && (CanStart(Now(), limit) ==> done == [])
      modifies this`printed, this`maxprinted, this`trace
      ensures Valid() && !CanPrint(Now())
      ensures Added(old(trace), e => e == Printed) && Rounds(trace) == old(Rounds(trace))
      ensures Productive(total, limit, trace) == old(Productive(total, limit, trace))
    {
      hide Runs, Rounds, Productive;
      PrintedAreDone(total, limit, trace);
      var rest, i := done[maxprinted..], 0;
      while i < |rest|
        invariant 0 <= i <= |rest| && maxprinted == old(maxprinted) + i
        invariant Valid() && Added(old(trace), e => e == Printed) && Rounds(trace) == old(Rounds(trace))
        invariant Productive(total, limit, trace) == old(Productive(total, limit, trace))
      {
        if rest[i] != maxprinted { break; }
        OneMore(total, limit, trace, Printed);
        printed := printed + [rest[i]];
        trace := trace + [Printed];
        maxprinted := maxprinted + 1;
        i := i + 1;
      }
    }

    /** A round of events: some of the running jobs complete. */
    method Complete(finished: set<nat>)
      requires Valid() && Allowed(Now(), Round(finished), limit)
      modifies this`running, this`done, this`trace
      ensures Valid() && trace == old(trace) + [Round(finished)] && Rounds(trace) == old(Rounds(trace)) + [finished]
      ensures Moved(old(running), old(done), finished, running, done)
    {
      hide Runs, Rounds, Productive, Keep, Sorted, Moved;
      KeepMoves(running, done, finished);
      OneMore(total, limit, trace, Round(finished));
      var newdone := Keep(running, finished, true);
      running := Keep(running, finished, false);
      done := Sorted(done + newdone);
      trace := trace + [Round(finished)];
    }

    /** An interrupt of the wait ends the running jobs, and their messages are printed with those of the others. */
    method Interrupt()
      requires Valid() && Allowed(Now(), Interrupted, limit)
      modifies this`done, this`printed, this`maxprinted, this`trace, this`stopped
      ensures Valid() && !CanPrint(Now()) && stopped
      ensures old(trace) + [Interrupted] <= trace && Rounds(trace) == old(Rounds(trace))
      ensures Productive(total, limit, trace) == old(Productive(total, limit, trace))
    {
      hide Runs, Rounds, Productive;
      OneMore(total, limit, trace, Interrupted);
      done := Sorted(done + running);
      trace, stopped := trace + [Interrupted], true;
      UpdateStatus();
    }

    /**
     * Runs the jobs through rounds of completions; when the rounds are used up the last wait is interrupted. A run is
     * interrupted only when too few of its rounds complete a job. Every job that was started has its message printed
     * exactly once and in order.
     */
    method Run(events: seq<set<nat>>) returns (ending: Ending)
      requires Valid() && trace == []
      modifies this
      ensures Valid() && Rounds(trace) <= events
      ensures ending == Finished ==> !stopped && done == printed == Range(0, total)
      ensures ending == Broken ==>
        stopped && Rounds(trace) == events && Productive(total, limit, trace) < total && |pending| <= total &&
        done == printed == Range(0, total - |pending|)
    {
      hide Runs, Rounds, Productive, Sound, Moved;
      NothingHappened(total, limit);
      UpdateStatus();
      var next := 0;
      while |pending| > 0 || |running| > 0
        invariant Valid() && !stopped && 0 <= next <= |events| && Rounds(trace) == events[..next]
        decreases |events| - next
      {
        Spawn();
        UpdateStatus();
        if next == |events| {
          Unfinished(Now(), total, limit, trace);
          Interrupt();
          Drained(Now(), total, limit, trace);
          return Broken;
        }
        Complete(events[next]);
        assert events[..next + 1] == events[..next] + [events[next]];
        next := next + 1;
      }
      UpdateStatus();
      Drained(Now(), total, limit, trace);
      return Finished;
    }
  }

  lemma NothingHappened(total: nat, limit: int)
    ensures Runs(total, limit, []) == Some(Initial(total)) && Rounds([]) == [] && Productive(total, limit, []) == 0
  {
  }

  /** A run that still waits has had fewer rounds in which a job completed than there are jobs. */
  lemma Unfinished(s: State, total: nat, limit: int, trace: seq<Event>)
    requires Runs(total, limit, trace) == Some(s) && (s.pending != [] || s.running != [])
    ensures Productive(total, limit, trace) < total
  {
    hide Runs, Productive;
    RunsAreSound(total, limit, trace);
    ProgressIsBounded(total, limit, trace);
    EachJobOnce(s, total, limit);
    assert |multiset(s.pending) + multiset(s.running) + multiset(s.done)| == |s.pending| + |s.running| + |s.done|;
    assert |multiset(Range(0, total))| == total;
  }
}
