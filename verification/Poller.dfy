/** One tick of the agent: jobs admitted through a semaphore, workers sending into a buffered
    channel, a closer, and the collector that posts what arrived in small batches. */
module Poller {

  const FLUSH_SIZE := 10

  /** The semaphore's capacity, for any configured value. */
  function MaxConcurrent(configured: int): (m: nat)
    ensures m > 0
  {
    if configured <= 0 then 10 else configured
  }

  // A worker's life after `sem <- struct{}{}`: it executes, sends its result, gives its slot
  // back, and leaves the wait group, in this order.
  datatype Phase = Waiting | Executing | Sent | Released | Gone

  /** `sent` is the order in which results entered the channel; the program does not keep it. */
  datatype Tick = Tick(phases: seq<Phase>, next: nat, sem: nat, wg: nat, channel: seq<nat>, closed: bool,
                       draining: bool, pending: seq<nat>, batches: seq<seq<nat>>, ended: bool, sent: seq<nat>)

  datatype Action = Admit | Send(i: nat) | Release(i: nat) | Leave(i: nat) | StartDraining | Close | Receive | FlushTick | Finish

  function Start(n: nat): Tick {
    Tick(seq(n, _ => Waiting), 0, 0, 0, [], false, false, [], [], false, [])
  }

  function Flush(s: Tick): Tick {
    if s.pending == [] then s else s.(pending := [], batches := s.batches + [s.pending])
  }

  predicate Enabled(s: Tick, m: nat, a: Action) {
    match a
    case Admit => s.next < |s.phases| && s.sem < m
    case Send(i) => i < |s.phases| && s.phases[i].Executing? && |s.channel| < |s.phases|
    case Release(i) => i < |s.phases| && s.phases[i].Sent? && s.sem > 0
    case Leave(i) => i < |s.phases| && s.phases[i].Released? && s.wg > 0
    case StartDraining => s.next == |s.phases| && !s.draining
    case Close => s.draining && s.wg == 0 && !s.closed
    case Receive => s.draining && !s.ended && s.channel != []
    case FlushTick => s.draining && !s.ended
    case Finish => s.draining && !s.ended && s.closed && s.channel == []
  }

  function Do(s: Tick, m: nat, a: Action): Tick
    requires Enabled(s, m, a)
  {
    match a
    case Admit => s.(phases := s.phases[s.next := Executing], next := s.next + 1, sem := s.sem + 1, wg := s.wg + 1)
    case Send(i) => s.(phases := s.phases[i := Sent], channel := s.channel + [i], sent := s.sent + [i])
    case Release(i) => s.(phases := s.phases[i := Released], sem := s.sem - 1)
    case Leave(i) => s.(phases := s.phases[i := Gone], wg := s.wg - 1)
    case StartDraining => s.(draining := true)
    case Close => s.(closed := true)
    case Receive =>
      var got := s.(channel := s.channel[1..], pending := s.pending + [s.channel[0]]);
      if |got.pending| >= FLUSH_SIZE then Flush(got) else got
    case FlushTick => Flush(s)
    case Finish => Flush(s).(ended := true)
  }

  ghost predicate Execution(states: seq<Tick>, acts: seq<Action>, n: nat, m: nat) {
    && |states| == |acts| + 1
    && states[0] == Start(n)
    && forall i {:trigger acts[i]} :: 0 <= i < |acts| ==> Enabled(states[i], m, acts[i]) && states[i + 1] == Do(states[i], m, acts[i])
  }

  // ---- counting phases ----

  function Count(phases: seq<Phase>, which: set<Phase>): nat {
    if phases == [] then 0
    else Count(phases[..|phases| - 1], which) + if phases[|phases| - 1] in which then 1 else 0
  }

  lemma {:induction false} CountUpdate(phases: seq<Phase>, i: nat, p: Phase, which: set<Phase>)
    requires i < |phases|
    ensures Count(phases[i := p], which) + (if phases[i] in which then 1 else 0)
         == Count(phases, which) + (if p in which then 1 else 0)
  {
    var n := |phases| - 1;
    if i < n {
      CountUpdate(phases[..n], i, p, which);
      assert phases[i := p][..n] == phases[..n][i := p];
    } else {
      assert phases[i := p][..n] == phases[..n];
    }
  }

  lemma {:induction false} CountNone(phases: seq<Phase>, which: set<Phase>)
    ensures Count(phases, which) <= |phases|
    ensures Count(phases, which) == 0 <==> forall i :: 0 <= i < |phases| ==> phases[i] !in which
    ensures Count(phases, which) == |phases| <==> forall i :: 0 <= i < |phases| ==> phases[i] in which
  {
    if phases != [] {
      CountNone(phases[..|phases| - 1], which);
    }
  }

  lemma {:induction false} CountSplit(phases: seq<Phase>, a: set<Phase>, b: set<Phase>)
    requires a !! b
    ensures Count(phases, a + b) == Count(phases, a) + Count(phases, b)
  {
    if phases != [] {
      CountSplit(phases[..|phases| - 1], a, b);
    }
  }

  function Flatten(batches: seq<seq<nat>>): seq<nat> {
    if batches == [] then [] else Flatten(batches[..|batches| - 1]) + batches[|batches| - 1]
  }

  lemma FlattenAppend(batches: seq<seq<nat>>, batch: seq<nat>)
    ensures Flatten(batches + [batch]) == Flatten(batches) + batch
  {
    assert (batches + [batch])[..|batches|] == batches;
  }

  // ---- the invariant ----

  const HOLDING: set<Phase> := {Executing, Sent}
  const PRESENT: set<Phase> := {Executing, Sent, Released}
  const AFTER_SEND: set<Phase> := {Sent, Released, Gone}

  predicate Counters(s: Tick, m: nat) {
    && s.next <= |s.phases|
    && (forall i :: 0 <= i < |s.phases| ==> (s.phases[i].Waiting? <==> i >= s.next))
    && s.sem == Count(s.phases, HOLDING) <= m
    && s.wg == Count(s.phases, PRESENT)
    && |s.sent| == Count(s.phases, AFTER_SEND)
  }

  /** Every result sent is in exactly one place, and nothing overtakes anything. */
  predicate Conserved(s: Tick) {
    && Flatten(s.batches) + s.pending + s.channel == s.sent
    && (forall i :: 0 <= i < |s.sent| ==> s.sent[i] < |s.phases| && s.phases[s.sent[i]] in AFTER_SEND)
    && (forall i, j :: 0 <= i < j < |s.sent| ==> s.sent[i] != s.sent[j])
    && (forall i :: 0 <= i < |s.phases| && s.phases[i] in AFTER_SEND ==> i in s.sent)
  }

  predicate Shapes(s: Tick) {
    && |s.pending| < FLUSH_SIZE
    && (forall k :: 0 <= k < |s.batches| ==> 1 <= |s.batches[k]| <= FLUSH_SIZE)
    && (s.draining ==> s.next == |s.phases|)
    && (!s.draining ==> s.pending == [] && s.batches == [] && !s.closed)
    && (s.closed ==> s.wg == 0)
    && (s.ended ==> s.draining && s.closed && s.channel == [] && s.pending == [])
  }

  predicate Inv(s: Tick, m: nat) {
    Counters(s, m) && Conserved(s) && Shapes(s)
  }

  lemma PhaseChange(s: Tick, i: nat, p: Phase)
    requires i < |s.phases|
    ensures var after := s.phases[i := p];
            && Count(after, HOLDING) + (if s.phases[i] in HOLDING then 1 else 0) == Count(s.phases, HOLDING) + (if p in HOLDING then 1 else 0)
            && Count(after, PRESENT) + (if s.phases[i] in PRESENT then 1 else 0) == Count(s.phases, PRESENT) + (if p in PRESENT then 1 else 0)
            && Count(after, AFTER_SEND) + (if s.phases[i] in AFTER_SEND then 1 else 0) == Count(s.phases, AFTER_SEND) + (if p in AFTER_SEND then 1 else 0)
  {
    CountUpdate(s.phases, i, p, HOLDING);
    CountUpdate(s.phases, i, p, PRESENT);
    CountUpdate(s.phases, i, p, AFTER_SEND);
  }

  lemma AdmitKeepsInv(s: Tick, m: nat)
    requires Inv(s, m) && Enabled(s, m, Admit)
    ensures Inv(Do(s, m, Admit), m)
  {
    PhaseChange(s, s.next, Executing);
    assert Counters(Do(s, m, Admit), m);
    AdmitKeepsConserved(s, m);
  }

  lemma AdmitKeepsConserved(s: Tick, m: nat)
    requires Inv(s, m) && Enabled(s, m, Admit)
    ensures Conserved(Do(s, m, Admit)) && Shapes(Do(s, m, Admit))
  {
    assert s.phases[s.next].Waiting?;
  }

  lemma SendKeepsInv(s: Tick, m: nat, i: nat)
    requires Inv(s, m) && Enabled(s, m, Send(i))
    ensures Inv(Do(s, m, Send(i)), m)
  {
    var s' := Do(s, m, Send(i));
    PhaseChange(s, i, Sent);
    assert Counters(s', m);
    assert i !in s.sent;
    assert Conserved(s') by {
      assert Flatten(s'.batches) + s'.pending + s'.channel == s.sent + [i];
    }
    CountNone(s.phases, PRESENT);
  }

  lemma LeaveSlotKeepsInv(s: Tick, m: nat, a: Action)
    requires Inv(s, m) && Enabled(s, m, a) && (a.Release? || a.Leave?)
    ensures Inv(Do(s, m, a), m)
  {
    var s' := Do(s, m, a);
    PhaseChange(s, a.i, if a.Release? then Released else Gone);
    assert Counters(s', m);
    assert Conserved(s');
    CountNone(s.phases, PRESENT);
  }

  lemma FlushKeepsInv(s: Tick, m: nat)
    requires Counters(s, m) && Conserved(s) && |s.pending| <= FLUSH_SIZE && s.draining && !s.ended && Shapes(s.(pending := []))
    ensures Inv(Flush(s), m)
  {
    FlattenAppend(s.batches, s.pending);
    assert Flatten(s.batches) + s.pending + [] + s.channel == Flatten(s.batches) + s.pending + s.channel;
  }

  lemma ReceiveKeepsInv(s: Tick, m: nat)
    requires Inv(s, m) && Enabled(s, m, Receive)
    ensures Inv(Do(s, m, Receive), m)
  {
    var got := s.(channel := s.channel[1..], pending := s.pending + [s.channel[0]]);
    ReceiveKeepsConserved(s);
    assert Counters(got, m) && Shapes(got.(pending := []));
    if |got.pending| >= FLUSH_SIZE { FlushKeepsInv(got, m); }
  }

  lemma ReceiveKeepsConserved(s: Tick)
    requires Conserved(s) && s.channel != []
    ensures Conserved(s.(channel := s.channel[1..], pending := s.pending + [s.channel[0]]))
  {
    assert s.pending + [s.channel[0]] + s.channel[1..] == s.pending + s.channel;
    assert Flatten(s.batches) + (s.pending + [s.channel[0]]) + s.channel[1..] == s.sent;
  }

  lemma FinishKeepsInv(s: Tick, m: nat)
    requires Inv(s, m) && Enabled(s, m, Finish)
    ensures Inv(Do(s, m, Finish), m)
  {
    FlushKeepsInv(s, m);
  }

  /** Starting to drain and closing move no result. */
  lemma GateKeepsInv(s: Tick, m: nat, a: Action)
    requires Inv(s, m) && Enabled(s, m, a) && (a.StartDraining? || a.Close?)
    ensures Inv(Do(s, m, a), m)
  {
  }

  lemma StepKeepsInv(s: Tick, m: nat, a: Action)
    requires Inv(s, m) && Enabled(s, m, a)
    ensures Inv(Do(s, m, a), m) && |Do(s, m, a).phases| == |s.phases|
  {
    match a
    case Admit => AdmitKeepsInv(s, m);
    case Send(i) => SendKeepsInv(s, m, i);
    case Release(_) => LeaveSlotKeepsInv(s, m, a);
    case Leave(_) => LeaveSlotKeepsInv(s, m, a);
    case Receive => ReceiveKeepsInv(s, m);
    case FlushTick => FlushKeepsInv(s, m);
    case Finish => FinishKeepsInv(s, m);
    case _ => GateKeepsInv(s, m, a);
  }

  lemma {:induction false} ReachableInv(states: seq<Tick>, acts: seq<Action>, n: nat, m: nat, i: nat)
    requires Execution(states, acts, n, m) && i < |states|
    ensures Inv(states[i], m) && |states[i].phases| == n
  {
    if i == 0 {
      CountNone(states[0].phases, HOLDING);
      CountNone(states[0].phases, PRESENT);
      CountNone(states[0].phases, AFTER_SEND);
    } else {
      ReachableInv(states, acts, n, m, i - 1);
      var a := acts[i - 1];
      StepKeepsInv(states[i - 1], m, a);
    }
  }

  // ---- the theorems ----

  /** At most the configured number of checks, or 10 without one, execute at once, and a worker with a result never blocks on
      the channel. */
  lemma NeverTooManyNeverBlocked(states: seq<Tick>, acts: seq<Action>, n: nat, configured: int, k: nat)
    requires Execution(states, acts, n, MaxConcurrent(configured)) && k < |states|
    ensures Count(states[k].phases, {Executing}) <= (if configured > 0 then configured else 10) && |states[k].phases| == n
    ensures forall i :: 0 <= i < n && states[k].phases[i].Executing? ==> Enabled(states[k], MaxConcurrent(configured), Send(i))
  {
    var m := MaxConcurrent(configured);
    ReachableInv(states, acts, n, m, k);
    var s := states[k];
    CountSplit(s.phases, {Executing}, {Sent});
    assert {Executing} + {Sent} == HOLDING;
    forall i | 0 <= i < n && s.phases[i].Executing? ensures |s.channel| < n {
      CountNone(s.phases, AFTER_SEND);
      assert |s.channel| <= |s.sent|;
    }
  }

  /** No deadlock: until the tick has ended some step other than the flush ticker is possible. */
  lemma NeverStuck(states: seq<Tick>, acts: seq<Action>, n: nat, configured: int, k: nat) returns (a: Action)
    requires Execution(states, acts, n, MaxConcurrent(configured)) && k < |states| && !states[k].ended
    ensures !a.FlushTick? && Enabled(states[k], MaxConcurrent(configured), a)
  {
    var m := MaxConcurrent(configured);
    ReachableInv(states, acts, n, m, k);
    NeverTooManyNeverBlocked(states, acts, n, configured, k);
    var s := states[k];
    CountNone(s.phases, HOLDING);
    CountNone(s.phases, PRESENT);
    if s.next < n {
      if s.sem < m { return Admit; }
      var i :| 0 <= i < n && s.phases[i] in HOLDING;
      return if s.phases[i].Executing? then Send(i) else Release(i);
    }
    if !s.draining { return StartDraining; }
    if s.channel != [] { return Receive; }
    if s.closed { return Finish; }
    if s.wg == 0 { return Close; }
    var i :| 0 <= i < n && s.phases[i] in PRESENT;
    return if s.phases[i].Executing? then Send(i) else if s.phases[i].Sent? then Release(i) else Leave(i);
  }

  function Weight(p: Phase): nat {
    match p
    case Waiting => 5
    case Executing => 4
    case Sent => 2
    case Released => 1
    case Gone => 0
  }

  function Weights(phases: seq<Phase>): nat {
    if phases == [] then 0 else Weights(phases[..|phases| - 1]) + Weight(phases[|phases| - 1])
  }

  function Remaining(s: Tick): nat {
    Weights(s.phases) + |s.channel| + (if s.draining then 0 else 1) + (if s.closed then 0 else 1) + (if s.ended then 0 else 1)
  }

  lemma {:induction false} WeightsUpdate(phases: seq<Phase>, i: nat, p: Phase)
    requires i < |phases|
    ensures Weights(phases[i := p]) + Weight(phases[i]) == Weights(phases) + Weight(p)
  {
    var n := |phases| - 1;
    if i < n {
      WeightsUpdate(phases[..n], i, p);
      assert phases[i := p][..n] == phases[..n][i := p];
    } else {
      assert phases[i := p][..n] == phases[..n];
    }
  }

  lemma {:induction false} WeightsAtStart(n: nat)
    ensures Weights(seq(n, _ => Waiting)) == 5 * n
  {
    if n > 0 {
      WeightsAtStart(n - 1);
      assert seq(n, _ => Waiting)[..n - 1] == seq(n - 1, _ => Waiting);
    }
  }

  lemma StepMakesProgress(s: Tick, m: nat, a: Action)
    requires Inv(s, m) && Enabled(s, m, a)
    ensures if a.FlushTick? then Remaining(Do(s, m, a)) == Remaining(s) else Remaining(Do(s, m, a)) < Remaining(s)
  {
    match a
    case Admit => WeightsUpdate(s.phases, s.next, Executing);
    case Send(i) => WeightsUpdate(s.phases, i, Sent);
    case Release(i) => WeightsUpdate(s.phases, i, Released);
    case Leave(i) => WeightsUpdate(s.phases, i, Gone);
    case _ =>
  }

  function Moves(acts: seq<Action>): nat {
    if acts == [] then 0 else Moves(acts[..|acts| - 1]) + if acts[|acts| - 1].FlushTick? then 0 else 1
  }

  /** Every schedule of a tick with n jobs is over after 5n + 3 steps, ticker firings aside. */
  lemma {:induction false} TickIsBounded(states: seq<Tick>, acts: seq<Action>, n: nat, m: nat)
    requires Execution(states, acts, n, m)
    ensures Moves(acts) + Remaining(states[|acts|]) <= 5 * n + 3
  {
    if acts == [] {
      WeightsAtStart(n);
    } else {
      var k := |acts| - 1;
      assert Execution(states[..k + 1], acts[..k], n, m) by {
        forall i | 0 <= i < k ensures Enabled(states[i], m, acts[i]) && states[i + 1] == Do(states[i], m, acts[i]) {
          var a := acts[i];
        }
      }
      TickIsBounded(states[..k + 1], acts[..k], n, m);
      ReachableInv(states, acts, n, m, k);
      var a := acts[k];
      StepMakesProgress(states[k], m, a);
    }
  }

  /** When the tick ends, the flushed batches hold every job's result exactly once, in the order
      the results were sent, 1 to 10 in a batch. */
  lemma EveryResultFlushedOnce(states: seq<Tick>, acts: seq<Action>, n: nat, m: nat, k: nat)
    requires Execution(states, acts, n, m) && k < |states| && states[k].ended
    ensures var out := Flatten(states[k].batches);
            && out == states[k].sent && |out| == n
            && (forall i :: 0 <= i < n ==> i in out)
            && (forall i, j :: 0 <= i < j < |out| ==> out[i] != out[j])
    ensures forall b :: 0 <= b < |states[k].batches| ==> 1 <= |states[k].batches[b]| <= 10
  {
    ReachableInv(states, acts, n, m, k);
    var s := states[k];
    assert Flatten(s.batches) + s.pending + s.channel == Flatten(s.batches);
    CountNone(s.phases, PRESENT);
    assert forall i :: 0 <= i < n ==> s.phases[i].Gone?;
    CountNone(s.phases, AFTER_SEND);
  }

  /** A step posts either nothing or one batch, which empties what was held: ten results as the
      tenth arrives, or whatever is held when the ticker fires or the tick ends. */
  lemma PostsWhen(states: seq<Tick>, acts: seq<Action>, n: nat, m: nat, i: nat)
    requires Execution(states, acts, n, m) && i < |acts|
    ensures var s, a, after := states[i], acts[i], states[i + 1];
            && |s.pending| < 10
            && (!a.Receive? && !a.FlushTick? && !a.Finish? ==> after.batches == s.batches && after.pending == s.pending)
            && (a.FlushTick? || a.Finish? ==> after.pending == [] && after.batches == if s.pending == [] then s.batches else s.batches + [s.pending])
            && (a.Receive? ==>
                  && s.channel != [] && after.channel == s.channel[1..]
                  && if |s.pending| == 9 then after.pending == [] && after.batches == s.batches + [s.pending + [s.channel[0]]]
                     else after.batches == s.batches && after.pending == s.pending + [s.channel[0]])
  {
    ReachableInv(states, acts, n, m, i);
    var a := acts[i];
  }

  /** Draining starts after the last admission: whenever a batch has been flushed, all but
      MaxConcurrent of the jobs have already given their slot back. */
  lemma DrainingWaitsForAdmission(states: seq<Tick>, acts: seq<Action>, n: nat, m: nat, k: nat)
    requires Execution(states, acts, n, m) && k < |states| && states[k].draining
    ensures Count(states[k].phases, {Released, Gone}) + m >= n
  {
    ReachableInv(states, acts, n, m, k);
    var s := states[k];
    CountSplit(s.phases, HOLDING, {Released, Gone});
    CountNone(s.phases, HOLDING + {Released, Gone});
  }

  function Admitted(n: nat, k: nat): Tick
    requires k <= n
  {
    Start(n).(phases := seq(n, i => if i < k then Executing else Waiting), next := k, sem := k, wg := k)
  }

  lemma {:induction false} AdmitFirst(n: nat, m: nat, k: nat) returns (states: seq<Tick>, acts: seq<Action>)
    requires k <= n && k <= m
    ensures Execution(states, acts, n, m) && states[|acts|] == Admitted(n, k)
  {
    if k == 0 {
      states, acts := [Start(n)], [];
      assert Admitted(n, 0).phases == Start(n).phases;
    } else {
      states, acts := AdmitFirst(n, m, k - 1);
      assert Admitted(n, k - 1).phases[k - 1 := Executing] == Admitted(n, k).phases;
      assert Do(states[|acts|], m, Admit) == Admitted(n, k);
      var more := acts + [Admit];
      forall i | 0 <= i < |more| ensures Enabled((states + [Admitted(n, k)])[i], m, more[i]) && (states + [Admitted(n, k)])[i + 1] == Do((states + [Admitted(n, k)])[i], m, more[i]) {
        if i < |acts| { var a := acts[i]; }
      }
      states, acts := states + [Admitted(n, k)], more;
    }
  }

  /** A run of the tick in which collection starts before any job has given its slot back. */
  ghost predicate DrainsEarly(states: seq<Tick>, acts: seq<Action>, n: nat, m: nat) {
    Execution(states, acts, n, m) && states[|acts|].draining && Count(states[|acts|].phases, {Released, Gone}) == 0
  }

  lemma DrainFirst(n: nat, m: nat) returns (all: seq<Tick>, more: seq<Action>)
    requires n <= m
    ensures DrainsEarly(all, more, n, m)
  {
    var states, acts := AdmitFirst(n, m, n);
    var last := states[|acts|].(draining := true);
    assert Do(states[|acts|], m, StartDraining) == last;
    more, all := acts + [StartDraining], states + [last];
    forall i | 0 <= i < |more| ensures Enabled(all[i], m, more[i]) && all[i + 1] == Do(all[i], m, more[i]) {
      if i < |acts| { var a := acts[i]; }
    }
    CountNone(last.phases, {Released, Gone});
  }

  /** Results can be collected while every job is still running exactly when all jobs fit at once. */
  lemma DrainsAtOnceIff(n: nat, configured: int)
    ensures n <= (if configured > 0 then configured else 10) <==> exists states, acts :: DrainsEarly(states, acts, n, MaxConcurrent(configured))
  {
    var m := MaxConcurrent(configured);
    if n <= m {
      var all, more := DrainFirst(n, m);
    }
    if exists states, acts :: DrainsEarly(states, acts, n, m) {
      var states, acts :| DrainsEarly(states, acts, n, m);
      DrainingWaitsForAdmission(states, acts, n, m, |acts|);
    }
  }

  // ---- the collector on its own ----

  datatype Event = Arrived(result: nat) | Ticked

  function Arrivals(events: seq<Event>): seq<nat> {
    if events == [] then []
    else Arrivals(events[..|events| - 1]) + if events[|events| - 1].Arrived? then [events[|events| - 1].result] else []
  }

  /** What the collector has posted, and what it holds. */
  datatype Collector = Collector(batches: seq<seq<nat>>, pending: seq<nat>)

  function FlushHeld(c: Collector): Collector {
    if c.pending == [] then c else Collector(c.batches + [c.pending], [])
  }

  function Take(c: Collector, e: Event): Collector {
    match e
    case Arrived(result) =>
      var got := c.(pending := c.pending + [result]);
      if |got.pending| >= FLUSH_SIZE then FlushHeld(got) else got
    case Ticked => FlushHeld(c)
  }

  function Collect(events: seq<Event>): Collector {
    if events == [] then Collector([], []) else Take(Collect(events[..|events| - 1]), events[|events| - 1])
  }

  /** All the collector has taken, posted or held. */
  function Taken(c: Collector): seq<nat> {
    Flatten(c.batches) + c.pending
  }

  predicate SmallBatches(batches: seq<seq<nat>>) {
    forall k :: 0 <= k < |batches| ==> 1 <= |batches[k]| <= FLUSH_SIZE
  }

  lemma FlushHeldKeeps(c: Collector)
    requires SmallBatches(c.batches) && |c.pending| <= FLUSH_SIZE
    ensures Taken(FlushHeld(c)) == Taken(c) && FlushHeld(c).pending == [] && SmallBatches(FlushHeld(c).batches)
  {
    if c.pending != [] { FlattenAppend(c.batches, c.pending); }
  }

  lemma TakeKeeps(c: Collector, e: Event)
    requires SmallBatches(c.batches) && |c.pending| < FLUSH_SIZE
    ensures var next := Take(c, e);
            && Taken(next) == Taken(c) + (if e.Arrived? then [e.result] else [])
            && SmallBatches(next.batches) && |next.pending| < FLUSH_SIZE
            && (e.Ticked? ==> next.pending == [])
  {
    match e
    case Arrived(result) =>
      var got := c.(pending := c.pending + [result]);
      assert Flatten(c.batches) + (c.pending + [result]) == Taken(c) + [result];
      if |got.pending| >= FLUSH_SIZE { FlushHeldKeeps(got); }
    case Ticked => FlushHeldKeeps(c);
  }

  /** The collector loses and reorders nothing, holds less than a full batch, and holds nothing
      right after the ticker fired. */
  lemma {:induction false} CollectKeeps(events: seq<Event>)
    ensures var c := Collect(events);
            && Taken(c) == Arrivals(events) && SmallBatches(c.batches) && |c.pending| < FLUSH_SIZE
            && (events != [] && events[|events| - 1].Ticked? ==> c.pending == [])
  {
    if events != [] {
      CollectKeeps(events[..|events| - 1]);
      TakeKeeps(Collect(events[..|events| - 1]), events[|events| - 1]);
    }
  }

  /** What has been posted stays posted. */
  lemma {:induction false} CollectGrows(events: seq<Event>, i: nat)
    requires i <= |events|
    ensures Collect(events[..i]).batches <= Collect(events).batches
    decreases |events|
  {
    if i == |events| {
      assert events[..i] == events;
    } else {
      var n := |events| - 1;
      assert events[..n][..i] == events[..i];
      CollectGrows(events[..n], i);
    }
  }

  /** Some prefix of the posted batches holds exactly `got`. */
  ghost predicate Posted(batches: seq<seq<nat>>, got: seq<nat>) {
    exists k :: 0 <= k <= |batches| && Flatten(batches[..k]) == got
  }

  lemma TickPosts(events: seq<Event>, i: nat)
    requires i < |events| && events[i].Ticked?
    ensures Posted(FlushHeld(Collect(events)).batches, Arrivals(events[..i + 1]))
  {
    var soFar, batches := Collect(events[..i + 1]), FlushHeld(Collect(events)).batches;
    CollectKeeps(events[..i + 1]);
    CollectGrows(events, i + 1);
    assert batches[..|soFar.batches|] == soFar.batches;
    assert Taken(soFar) == Flatten(soFar.batches);
  }

  /** Batch `k` is the last posted by some firing of the ticker. */
  ghost predicate ByTicker(batches: seq<seq<nat>>, events: seq<Event>, k: nat)
    requires k < |batches|
  {
    exists i {:trigger events[i]} :: 0 <= i < |events| && events[i].Ticked? && Flatten(batches[..k + 1]) == Arrivals(events[..i + 1])
  }

  /** Short of the close only the ticker posts a batch of fewer than ten. */
  lemma {:induction false} SmallByTicker(events: seq<Event>)
    ensures var batches := Collect(events).batches;
            forall k :: 0 <= k < |batches| ==> |batches[k]| == 10 || ByTicker(batches, events, k)
  {
    if events != [] {
      var n := |events| - 1;
      var before, batches := Collect(events[..n]), Collect(events).batches;
      SmallByTicker(events[..n]);
      CollectKeeps(events[..n]);
      CollectKeeps(events);
      CollectGrows(events, n);
      forall k | 0 <= k < |batches| && |batches[k]| != 10 ensures ByTicker(batches, events, k) {
        if k < |before.batches| {
          SameReason(before.batches, events[..n], batches, events, k);
        } else {
          assert events[n].Ticked? && events[..n + 1] == events;
          assert batches[..k + 1] == batches;
        }
      }
    }
  }

  lemma SameReason(batches: seq<seq<nat>>, events: seq<Event>, moreBatches: seq<seq<nat>>, moreEvents: seq<Event>, k: nat)
    requires batches <= moreBatches && events <= moreEvents && k < |batches| && ByTicker(batches, events, k)
    ensures ByTicker(moreBatches, moreEvents, k)
  {
    var i :| 0 <= i < |events| && events[i].Ticked? && Flatten(batches[..k + 1]) == Arrivals(events[..i + 1]);
    assert batches[..k + 1] == moreBatches[..k + 1] && events[..i + 1] == moreEvents[..i + 1] && moreEvents[i].Ticked?;
  }

  lemma CloseKeepsReasons(events: seq<Event>)
    requires var batches := Collect(events).batches; forall k :: 0 <= k < |batches| ==> |batches[k]| == 10 || ByTicker(batches, events, k)
    ensures var posted := FlushHeld(Collect(events)).batches;
            forall k :: 0 <= k < |posted| ==> |posted[k]| == 10 || ByTicker(posted, events, k) || k == |posted| - 1
  {
    var batches, posted := Collect(events).batches, FlushHeld(Collect(events)).batches;
    forall k | 0 <= k < |posted| && |posted[k]| != 10 && k != |posted| - 1 ensures ByTicker(posted, events, k) {
      assert k < |batches| && posted[k] == batches[k];
      SameReason(batches, events, posted, events, k);
    }
  }

  method FlushPending(batches: seq<seq<nat>>, pending: seq<nat>) returns (posted: seq<seq<nat>>)
    ensures posted == FlushHeld(Collector(batches, pending)).batches
  {
    posted := batches;
    if |pending| > 0 {
      posted := batches + [pending];
    }
  }

  /** The collector's loop over what it selects until the channel closes. Whatever has arrived
      when the ticker fires is in the batches posted by then. */
  method StreamResults(events: seq<Event>) returns (batches: seq<seq<nat>>)
    ensures batches == FlushHeld(Collect(events)).batches
    ensures Flatten(batches) == Arrivals(events)
    ensures forall k :: 0 <= k < |batches| ==> 1 <= |batches[k]| <= 10
    ensures forall i :: 0 <= i < |events| && events[i].Ticked? ==> Posted(batches, Arrivals(events[..i + 1]))
    ensures forall k :: 0 <= k < |batches| ==> |batches[k]| == 10 || ByTicker(batches, events, k) || k == |batches| - 1
  {
    batches := [];
    var pending := [];
    for i := 0 to |events|
      invariant Collector(batches, pending) == Collect(events[..i])
    {
      assert events[..i + 1][..i] == events[..i];
      if events[i].Arrived? {
        pending := pending + [events[i].result];
        if |pending| >= FLUSH_SIZE {
          batches := FlushPending(batches, pending);
          pending := [];
        }
      } else {
        batches := FlushPending(batches, pending);
        pending := [];
      }
    }
    assert events[..|events|] == events;
    batches := FlushPending(batches, pending);
    StreamKeeps(events);
    SmallByTicker(events);
    CloseKeepsReasons(events);
  }

  lemma StreamKeeps(events: seq<Event>)
    ensures var batches := FlushHeld(Collect(events)).batches;
            && Flatten(batches) == Arrivals(events) && SmallBatches(batches)
            && forall i :: 0 <= i < |events| && events[i].Ticked? ==> Posted(batches, Arrivals(events[..i + 1]))
  {
    CollectKeeps(events);
    FlushHeldKeeps(Collect(events));
    var batches := FlushHeld(Collect(events)).batches;
    assert Flatten(batches) == Taken(FlushHeld(Collect(events)));
    forall i | 0 <= i < |events| && events[i].Ticked? ensures Posted(batches, Arrivals(events[..i + 1])) {
      TickPosts(events, i);
    }
  }
}
