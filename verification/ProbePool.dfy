/** The scanner's worker pool: one producer streams targets into a bounded queue and then puts
    one sentinel per worker; each worker probes what it gets and leaves on a sentinel. */
module ProbePool {

  datatype Item = Target(i: nat) | Sentinel

  datatype Worker = Waiting | Probing(i: nat) | Exited

  /** `taken` and `handled` are history: targets taken from the queue so far, and the order in
      which results were handled. `done` is the program's own counter. */
  datatype Pool = Pool(produced: nat, sentinels: nat, queue: seq<Item>, workers: seq<Worker>, done: nat, taken: nat, handled: seq<nat>)

  datatype Action = PutTarget | PutSentinel | Get(k: nat) | Handle(k: nat)

  function Start(c: nat): Pool {
    Pool(0, 0, [], seq(c, _ => Waiting), 0, 0, [])
  }

  predicate Enabled(s: Pool, n: nat, a: Action) {
    match a
    case PutTarget => s.produced < n && |s.queue| < 2 * |s.workers|
    case PutSentinel => s.produced == n && s.sentinels < |s.workers| && |s.queue| < 2 * |s.workers|
    case Get(k) => k < |s.workers| && s.workers[k].Waiting? && s.queue != []
    case Handle(k) => k < |s.workers| && s.workers[k].Probing?
  }

  function Do(s: Pool, n: nat, a: Action): Pool
    requires Enabled(s, n, a)
  {
    match a
    case PutTarget => s.(produced := s.produced + 1, queue := s.queue + [Target(s.produced)])
    case PutSentinel => s.(sentinels := s.sentinels + 1, queue := s.queue + [Sentinel])
    case Get(k) =>
      match s.queue[0] {
        case Target(i) => s.(queue := s.queue[1..], workers := s.workers[k := Probing(i)], taken := s.taken + 1)
        case Sentinel => s.(queue := s.queue[1..], workers := s.workers[k := Exited])
      }
    case Handle(k) => s.(workers := s.workers[k := Waiting], done := s.done + 1, handled := s.handled + [s.workers[k].i])
  }

  ghost predicate Execution(states: seq<Pool>, acts: seq<Action>, n: nat, c: nat) {
    && |states| == |acts| + 1
    && states[0] == Start(c)
    && forall j {:trigger acts[j]} :: 0 <= j < |acts| ==> Enabled(states[j], n, acts[j]) && states[j + 1] == Do(states[j], n, acts[j])
  }

  function ExitedCount(workers: seq<Worker>): nat {
    if workers == [] then 0
    else ExitedCount(workers[..|workers| - 1]) + if workers[|workers| - 1].Exited? then 1 else 0
  }

  lemma {:induction false} ExitedUpdate(workers: seq<Worker>, k: nat, w: Worker)
    requires k < |workers|
    ensures ExitedCount(workers[k := w]) + (if workers[k].Exited? then 1 else 0) == ExitedCount(workers) + (if w.Exited? then 1 else 0)
  {
    var n := |workers| - 1;
    if k < n {
      ExitedUpdate(workers[..n], k, w);
      assert workers[k := w][..n] == workers[..n][k := w];
    } else {
      assert workers[k := w][..n] == workers[..n];
    }
  }

  lemma {:induction false} ExitedBounds(workers: seq<Worker>)
    ensures ExitedCount(workers) <= |workers|
    ensures ExitedCount(workers) == |workers| <==> forall k :: 0 <= k < |workers| ==> workers[k].Exited?
    ensures ExitedCount(workers) == 0 <==> forall k :: 0 <= k < |workers| ==> !workers[k].Exited?
  {
    if workers != [] { ExitedBounds(workers[..|workers| - 1]); }
  }

  /** The queue is the produced targets not yet taken, in order, then the sentinels not yet taken. */
  predicate QueueOk(s: Pool, n: nat) {
    && s.taken <= s.produced <= n && s.sentinels <= |s.workers|
    && (s.sentinels > 0 ==> s.produced == n)
    && ExitedCount(s.workers) <= s.sentinels
    && (ExitedCount(s.workers) > 0 ==> s.taken == n)
    && |s.queue| == s.produced - s.taken + s.sentinels - ExitedCount(s.workers)
    && |s.queue| <= 2 * |s.workers|
    && (forall j :: 0 <= j < |s.queue| ==> s.queue[j] == if j < s.produced - s.taken then Target(s.taken + j) else Sentinel)
  }

  predicate InProbe(s: Pool, i: nat) {
    exists k :: 0 <= k < |s.workers| && s.workers[k] == Probing(i)
  }

  /** A taken target is handled once or probed by one worker, never both. */
  predicate ProbesOk(s: Pool) {
    && s.done == |s.handled|
    && (forall j :: 0 <= j < |s.handled| ==> s.handled[j] < s.taken)
    && (forall j, l :: 0 <= j < l < |s.handled| ==> s.handled[j] != s.handled[l])
    && (forall k :: 0 <= k < |s.workers| && s.workers[k].Probing? ==> s.workers[k].i < s.taken && s.workers[k].i !in s.handled)
    && (forall k, l :: 0 <= k < l < |s.workers| && s.workers[k].Probing? && s.workers[l].Probing? ==> s.workers[k].i != s.workers[l].i)
    && (forall i :: 0 <= i < s.taken ==> i in s.handled || InProbe(s, i))
  }

  lemma PutKeepsInv(s: Pool, n: nat, a: Action)
    requires QueueOk(s, n) && ProbesOk(s) && Enabled(s, n, a) && (a.PutTarget? || a.PutSentinel?)
    ensures QueueOk(Do(s, n, a), n) && ProbesOk(Do(s, n, a))
  {
    forall i | 0 <= i < s.taken && InProbe(s, i) ensures InProbe(Do(s, n, a), i) {
      var k :| 0 <= k < |s.workers| && s.workers[k] == Probing(i);
      assert Do(s, n, a).workers[k] == Probing(i);
    }
  }

  lemma GetKeepsInv(s: Pool, n: nat, k: nat)
    requires QueueOk(s, n) && ProbesOk(s) && Enabled(s, n, Get(k))
    ensures QueueOk(Do(s, n, Get(k)), n) && ProbesOk(Do(s, n, Get(k)))
  {
    var s' := Do(s, n, Get(k));
    ExitedUpdate(s.workers, k, s'.workers[k]);
    forall i | 0 <= i < s.taken && InProbe(s, i) ensures InProbe(s', i) {
      var l :| 0 <= l < |s.workers| && s.workers[l] == Probing(i);
      assert s'.workers[l] == Probing(i);
    }
    if s.queue[0].Target? { assert s'.workers[k] == Probing(s.taken); }
  }

  lemma HandleKeepsInv(s: Pool, n: nat, k: nat)
    requires QueueOk(s, n) && ProbesOk(s) && Enabled(s, n, Handle(k))
    ensures QueueOk(Do(s, n, Handle(k)), n) && ProbesOk(Do(s, n, Handle(k)))
  {
    var s' := Do(s, n, Handle(k));
    ExitedUpdate(s.workers, k, Waiting);
    forall i | 0 <= i < s.taken ensures i in s'.handled || InProbe(s', i) {
      if i == s.workers[k].i {
        assert s'.handled[|s.handled|] == i;
      } else if i in s.handled {
        var j :| 0 <= j < |s.handled| && s.handled[j] == i;
        assert s'.handled[j] == i;
      } else {
        var l :| 0 <= l < |s.workers| && s.workers[l] == Probing(i);
        assert s'.workers[l] == Probing(i);
      }
    }
  }

  lemma {:induction false} ReachableInv(states: seq<Pool>, acts: seq<Action>, n: nat, c: nat, j: nat)
    requires Execution(states, acts, n, c) && j < |states|
    ensures QueueOk(states[j], n) && ProbesOk(states[j]) && |states[j].workers| == c
  {
    if j == 0 {
      ExitedBounds(states[0].workers);
    } else {
      ReachableInv(states, acts, n, c, j - 1);
      match acts[j - 1] {
        case Get(k) => GetKeepsInv(states[j - 1], n, k);
        case Handle(k) => HandleKeepsInv(states[j - 1], n, k);
        case _ => PutKeepsInv(states[j - 1], n, acts[j - 1]);
      }
    }
  }

  /** The memory bound, and no deadlock until every worker has exited. */
  lemma NeverStuck(states: seq<Pool>, acts: seq<Action>, n: nat, c: nat, j: nat) returns (a: Action)
    requires Execution(states, acts, n, c) && j < |states| && ExitedCount(states[j].workers) < c
    ensures Enabled(states[j], n, a) && |states[j].queue| <= 2 * c
  {
    ReachableInv(states, acts, n, c, j);
    var s := states[j];
    ExitedBounds(s.workers);
    var k :| 0 <= k < c && !s.workers[k].Exited?;
    a := if s.workers[k].Probing? then Handle(k)
         else if s.queue != [] then Get(k)
         else if s.produced < n then PutTarget else PutSentinel;
  }

  /** When every worker has exited, each target was probed and counted once, every worker took
      exactly one sentinel, and none is left in the queue. */
  lemma EveryTargetOnce(states: seq<Pool>, acts: seq<Action>, n: nat, c: nat, j: nat)
    requires Execution(states, acts, n, c) && c > 0 && j < |states| && ExitedCount(states[j].workers) == c
    ensures var s := states[j];
            && s.done == n && |s.handled| == n && s.sentinels == c && s.queue == []
            && (forall i :: 0 <= i < n ==> i in s.handled)
            && (forall k, l :: 0 <= k < l < |s.handled| ==> s.handled[k] != s.handled[l])
  {
    ReachableInv(states, acts, n, c, j);
    var s := states[j];
    ExitedBounds(s.workers);
    forall i | 0 <= i < n ensures i in s.handled {
      assert !InProbe(s, i);
    }
    AllOf(s.handled, n);
  }

  /** Every step puts, takes or handles one thing, so a finished scan took 3n + 2c steps. */
  lemma {:induction false} StepsTaken(states: seq<Pool>, acts: seq<Action>, n: nat, c: nat, j: nat)
    requires Execution(states, acts, n, c) && j < |states|
    ensures var s := states[j]; j == s.produced + s.sentinels + s.taken + ExitedCount(s.workers) + s.done
    ensures c > 0 && ExitedCount(states[j].workers) == c ==> j == 3 * n + 2 * c
  {
    if j == 0 {
      ExitedBounds(states[0].workers);
    } else {
      StepsTaken(states, acts, n, c, j - 1);
      ReachableInv(states, acts, n, c, j - 1);
      var s := states[j - 1];
      match acts[j - 1] {
        case Get(k) => ExitedUpdate(s.workers, k, states[j].workers[k]);
        case Handle(k) => ExitedUpdate(s.workers, k, Waiting);
        case _ =>
      }
    }
    ReachableInv(states, acts, n, c, j);
    if c > 0 && ExitedCount(states[j].workers) == c { EveryTargetOnce(states, acts, n, c, j); }
  }

  lemma {:induction false} AllOf(xs: seq<nat>, n: nat)
    requires forall i, j :: 0 <= i < j < |xs| ==> xs[i] != xs[j]
    requires forall i :: 0 <= i < |xs| ==> xs[i] < n
    requires forall i :: 0 <= i < n ==> i in xs
    ensures |xs| == n
    decreases n
  {
    if n > 0 {
      var last: nat := n - 1;
      assert last in xs;
      var k :| 0 <= k < |xs| && xs[k] == last;
      var rest := xs[..k] + xs[k + 1..];
      forall i | 0 <= i < n - 1 ensures i in rest {
        assert i in xs;
        var j :| 0 <= j < |xs| && xs[j] == i;
        assert rest[if j < k then j else j - 1] == i;
      }
      AllOf(rest, n - 1);
    }
  }
}
