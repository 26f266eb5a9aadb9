/** runWithConcurrency: `limit` loops share one counter; each takes the next index, awaits its
    worker, stores the result and goes on. Between two awaits nothing else runs. */
module Concurrency {
  import opened Records

  datatype Loop = NotStarted | Awaiting(i: nat) | Returned

  /** `started` logs the worker calls; the program does not keep it. */
  datatype State<R> = State(next: nat, loops: seq<Loop>, results: seq<Option<R>>, started: seq<nat>)

  datatype Action = Begin(k: nat) | Resolve(k: nat)

  function LoopCount(limit: int, n: nat): nat {
    var wanted := if limit < 1 then 1 else limit;
    if wanted < n then wanted else n
  }

  function Start<R>(n: nat, limit: int): State<R> {
    State(0, seq(LoopCount(limit, n), _ => NotStarted), seq(n, _ => None), [])
  }

  /** `const i = next++; if (i >= items.length) return; worker(items[i])` of loop k. */
  function TakeNext<R>(s: State<R>, k: nat): State<R>
    requires k < |s.loops|
  {
    if s.next >= |s.results| then s.(next := s.next + 1, loops := s.loops[k := Returned])
    else s.(next := s.next + 1, loops := s.loops[k := Awaiting(s.next)], started := s.started + [s.next])
  }

  predicate Enabled<R>(s: State<R>, a: Action) {
    match a
    case Begin(k) => k < |s.loops| && s.loops[k].NotStarted?
    case Resolve(k) => k < |s.loops| && s.loops[k].Awaiting? && s.loops[k].i < |s.results|
  }

  function Do<T, R>(s: State<R>, items: seq<T>, worker: T -> R, a: Action): State<R>
    requires Enabled(s, a) && |items| == |s.results|
  {
    match a
    case Begin(k) => TakeNext(s, k)
    case Resolve(k) =>
      var i := s.loops[k].i;
      TakeNext(s.(results := s.results[i := Some(worker(items[i]))]), k)
  }

  ghost predicate Execution<T, R>(states: seq<State<R>>, acts: seq<Action>, items: seq<T>, limit: int, worker: T -> R) {
    && |states| == |acts| + 1
    && states[0] == Start(|items|, limit)
    && forall j {:trigger acts[j]} :: 0 <= j < |acts| ==>
         Enabled(states[j], acts[j]) && |states[j].results| == |items| && states[j + 1] == Do(states[j], items, worker, acts[j])
  }

  predicate Done<R>(s: State<R>) {
    forall k :: 0 <= k < |s.loops| ==> s.loops[k].Returned?
  }

  predicate Upcoming<R>(s: State<R>, i: nat) {
    i >= s.next
  }

  /** Started items are either answered, with their own worker's value, or awaited by exactly
      one loop; the others are untouched. */
  ghost predicate Inv<T, R>(s: State<R>, items: seq<T>, limit: int, worker: T -> R) {
    && |s.results| == |items| && |s.loops| == LoopCount(limit, |items|)
    && s.started == seq(if s.next < |items| then s.next else |items|, i => i)
    && (forall k :: 0 <= k < |s.loops| && s.loops[k].Awaiting? ==> s.loops[k].i < s.next && s.loops[k].i < |items| && s.results[s.loops[k].i] == None)
    && (forall k, l :: 0 <= k < l < |s.loops| && s.loops[k].Awaiting? && s.loops[l].Awaiting? ==> s.loops[k].i != s.loops[l].i)
    && (forall i :: 0 <= i < |items| ==>
          if Upcoming(s, i) then s.results[i] == None
          else s.results[i] == Some(worker(items[i])) || (s.results[i] == None && Awaited(s, i)))
    && (forall k :: 0 <= k < |s.loops| && s.loops[k].Returned? ==> s.next >= |items|)
  }

  predicate Awaited<R>(s: State<R>, i: nat) {
    exists k :: 0 <= k < |s.loops| && s.loops[k] == Awaiting(i)
  }

  lemma BeginKeepsInv<T, R>(s: State<R>, items: seq<T>, limit: int, worker: T -> R, k: nat)
    requires Inv(s, items, limit, worker) && Enabled(s, Begin(k))
    ensures Inv(Do(s, items, worker, Begin(k)), items, limit, worker)
  {
    var s' := TakeNext(s, k);
    forall i | 0 <= i < |items| && Awaited(s, i) ensures Awaited(s', i) {
      var l :| 0 <= l < |s.loops| && s.loops[l] == Awaiting(i);
      assert s'.loops[l] == Awaiting(i);
    }
    if s.next < |items| { assert s'.loops[k] == Awaiting(s.next); }
  }

  lemma ResolveKeepsInv<T, R>(s: State<R>, items: seq<T>, limit: int, worker: T -> R, k: nat)
    requires Inv(s, items, limit, worker) && Enabled(s, Resolve(k))
    ensures Inv(Do(s, items, worker, Resolve(k)), items, limit, worker)
  {
    var j := s.loops[k].i;
    var s' := Do(s, items, worker, Resolve(k));
    forall i | 0 <= i < |items| && i != j && Awaited(s, i) ensures Awaited(s', i) {
      var l :| 0 <= l < |s.loops| && s.loops[l] == Awaiting(i);
      assert s'.loops[l] == Awaiting(i);
    }
    if s.next < |items| { assert s'.loops[k] == Awaiting(s.next); }
  }

  lemma {:induction false} ReachableInv<T, R>(states: seq<State<R>>, acts: seq<Action>, items: seq<T>, limit: int, worker: T -> R, j: nat)
    requires Execution(states, acts, items, limit, worker) && j < |states|
    ensures Inv(states[j], items, limit, worker)
  {
    if j > 0 {
      ReachableInv(states, acts, items, limit, worker, j - 1);
      match acts[j - 1] {
        case Begin(k) => BeginKeepsInv(states[j - 1], items, limit, worker, k);
        case Resolve(k) => ResolveKeepsInv(states[j - 1], items, limit, worker, k);
      }
    }
  }

  /** Worker calls begin in input order, each item once, and never more than `limit` are in flight. */
  lemma StartsEachItemOnce<T, R>(states: seq<State<R>>, acts: seq<Action>, items: seq<T>, limit: int, worker: T -> R, j: nat)
    requires Execution(states, acts, items, limit, worker) && j < |states|
    ensures states[j].started == seq(|states[j].started|, i => i) && |states[j].started| <= |items|
    ensures |set k | 0 <= k < |states[j].loops| && states[j].loops[k].Awaiting?| <= if limit < 1 then 1 else limit
    ensures Done(states[j]) ==> |states[j].started| == |items|
    ensures var most := if limit < 1 then 1 else limit;
            |states[j].loops| == if most < |items| then most else |items|
  {
    ReachableInv(states, acts, items, limit, worker, j);
    var s := states[j];
    var inFlight := set k | 0 <= k < |s.loops| && s.loops[k].Awaiting?;
    SubsetOfRange(inFlight, |s.loops|);
    if Done(s) && |items| > 0 { assert s.loops[0].Returned?; }
  }

  lemma {:induction false} SubsetOfRange(s: set<int>, n: nat)
    requires forall x :: x in s ==> 0 <= x < n
    ensures |s| <= n
  {
    if n > 0 {
      SubsetOfRange(s - {n - 1}, n - 1);
    } else {
      assert forall x :: x !in s;
    }
  }

  /** Whatever the finish order, `results[i]` is worker(items[i]) for every i. */
  lemma ResultsInInputOrder<T, R>(states: seq<State<R>>, acts: seq<Action>, items: seq<T>, limit: int, worker: T -> R, j: nat)
    requires Execution(states, acts, items, limit, worker) && j < |states| && Done(states[j])
    ensures |states[j].results| == |items|
    ensures forall i :: 0 <= i < |items| ==> states[j].results[i] == Some(worker(items[i]))
  {
    ReachableInv(states, acts, items, limit, worker, j);
    var s := states[j];
    forall i | 0 <= i < |items| ensures s.results[i] == Some(worker(items[i])) {
      assert s.loops[0].Returned?;
      assert !Awaited(s, i);
    }
  }

  /** Until all loops have returned, some loop can begin or some awaited worker can resolve. */
  lemma NeverStuck<T, R>(states: seq<State<R>>, acts: seq<Action>, items: seq<T>, limit: int, worker: T -> R, j: nat) returns (a: Action)
    requires Execution(states, acts, items, limit, worker) && j < |states| && !Done(states[j])
    ensures Enabled(states[j], a)
  {
    ReachableInv(states, acts, items, limit, worker, j);
    var k :| 0 <= k < |states[j].loops| && !states[j].loops[k].Returned?;
    a := if states[j].loops[k].NotStarted? then Begin(k) else Resolve(k);
  }

  function Unreturned(loops: seq<Loop>): nat {
    if loops == [] then 0 else Unreturned(loops[..|loops| - 1]) + if loops[|loops| - 1].Returned? then 0 else 1
  }

  lemma {:induction false} UnreturnedUpdate(loops: seq<Loop>, k: nat, l: Loop)
    requires k < |loops|
    ensures Unreturned(loops[k := l]) + (if loops[k].Returned? then 0 else 1) == Unreturned(loops) + (if l.Returned? then 0 else 1)
  {
    var n := |loops| - 1;
    if k < n {
      UnreturnedUpdate(loops[..n], k, l);
      assert loops[k := l][..n] == loops[..n][k := l];
    } else {
      assert loops[k := l][..n] == loops[..n];
    }
  }

  lemma {:induction false} UnreturnedAtStart(n: nat)
    ensures Unreturned(seq(n, _ => NotStarted)) == n
  {
    if n > 0 {
      UnreturnedAtStart(n - 1);
      assert seq(n, _ => NotStarted)[..n - 1] == seq(n - 1, _ => NotStarted);
    }
  }

  lemma {:induction false} UnreturnedZero(loops: seq<Loop>)
    ensures Unreturned(loops) == 0 <==> forall k :: 0 <= k < |loops| ==> loops[k].Returned?
  {
    if loops != [] { UnreturnedZero(loops[..|loops| - 1]); }
  }

  lemma StepTakes<T, R>(s: State<R>, items: seq<T>, limit: int, worker: T -> R, a: Action)
    requires Inv(s, items, limit, worker) && Enabled(s, a)
    ensures var s' := Do(s, items, worker, a);
            1 + Unreturned(s'.loops) + |s.started| == Unreturned(s.loops) + |s'.started|
  {
    UnreturnedUpdate(s.loops, a.k, if s.next >= |items| then Returned else Awaiting(s.next));
  }

  /** Each step hands out one index or retires one loop, so every execution ends after exactly
      one step per item and one more per loop. */
  lemma {:induction false} StepsTaken<T, R>(states: seq<State<R>>, acts: seq<Action>, items: seq<T>, limit: int, worker: T -> R, j: nat)
    requires Execution(states, acts, items, limit, worker) && j <= |acts|
    ensures j + Unreturned(states[j].loops) == |states[j].started| + LoopCount(limit, |items|)
    ensures Done(states[j]) ==> var most := if limit < 1 then 1 else limit;
                                j == |items| + if most < |items| then most else |items|
  {
    if j == 0 {
      UnreturnedAtStart(LoopCount(limit, |items|));
    } else {
      StepsTaken(states, acts, items, limit, worker, j - 1);
      ReachableInv(states, acts, items, limit, worker, j - 1);
      StepTakes(states[j - 1], items, limit, worker, acts[j - 1]);
    }
    UnreturnedZero(states[j].loops);
    StartsEachItemOnce(states, acts, items, limit, worker, j);
  }
}
