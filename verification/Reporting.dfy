/** How long a finished result waits for its batch: the timed schedule of a tick's jobs joined to
    the collector, which starts when the last job has been admitted and is driven by arrivals,
    a ticker and the closing of the channel. */
module Reporting {
  import opened Waves
  import opened Poller

  /** An event the collector selects, with its time. */
  datatype Timed = Timed(at: nat, event: Event)

  function Finish(starts: seq<nat>, durations: seq<nat>, j: nat): nat
    requires j < |starts| == |durations|
  {
    starts[j] + durations[j]
  }

  /** The collector starts right after the last admission. */
  function Collecting(starts: seq<nat>): nat
    requires |starts| > 0
  {
    starts[|starts| - 1]
  }

  function Later(a: nat, b: nat): nat {
    if a < b then b else a
  }

  /** When the last worker is done and the channel closes. */
  function Closing(starts: seq<nat>, durations: seq<nat>): nat
    requires |starts| == |durations|
  {
    if starts == [] then 0
    else
      var n := |starts| - 1;
      Later(Closing(starts[..n], durations[..n]), starts[n] + durations[n])
  }

  /** A result is there for the collector once its job is over and the collector runs. */
  function Arrival(starts: seq<nat>, durations: seq<nat>, j: nat): Timed
    requires j < |starts| == |durations|
  {
    Timed(Later(Finish(starts, durations, j), Collecting(starts)), Arrived(j))
  }

  /** How often the ticker fires between the collector's start and the closing. */
  function Firings(starts: seq<nat>, durations: seq<nat>, interval: nat): nat
    requires 0 < |starts| == |durations| && interval > 0
  {
    if Closing(starts, durations) < Collecting(starts) then 0
    else (Closing(starts, durations) - Collecting(starts)) / interval
  }

  function Firing(starts: seq<nat>, interval: nat, k: nat): Timed
    requires |starts| > 0
  {
    Timed(Collecting(starts) + (k + 1) * interval, Ticked)
  }

  function Expected(starts: seq<nat>, durations: seq<nat>, interval: nat): seq<Timed>
    requires 0 < |starts| == |durations| && interval > 0
  {
    seq(|starts|, j requires 0 <= j < |starts| => Arrival(starts, durations, j))
    + seq(Firings(starts, durations, interval), k requires 0 <= k => Firing(starts, interval, k))
  }

  predicate InTimeOrder(line: seq<Timed>) {
    forall i, j :: 0 <= i < j < |line| ==> line[i].at <= line[j].at
  }

  /** Everything that happens to the collector, in time order; at one instant, in any order. */
  ghost predicate Timeline(line: seq<Timed>, starts: seq<nat>, durations: seq<nat>, interval: nat)
    requires 0 < |starts| == |durations| && interval > 0
  {
    InTimeOrder(line) && multiset(line) == multiset(Expected(starts, durations, interval))
  }

  function Events(line: seq<Timed>): seq<Event> {
    seq(|line|, i requires 0 <= i < |line| => line[i].event)
  }

  /** Result `j` has been posted by time `t`: in a batch flushed at or before it, or in the last
      flush when the channel closes. */
  ghost predicate ReportedBy(line: seq<Timed>, closing: nat, j: nat, t: nat) {
    || (exists i :: 0 <= i < |line| && PostedAfter(line, i, j) && line[i].at <= t)
    || (closing <= t && j in Flatten(FlushHeld(Collect(Events(line))).batches))
  }

  predicate PostedAfter(line: seq<Timed>, i: nat, j: nat)
    requires i < |line|
  {
    j in Flatten(Collect(Events(line)[..i + 1]).batches)
  }

  // ---- every schedule has its timeline ----

  /** Where a new event belongs. */
  lemma {:induction false} Position(line: seq<Timed>, at: nat) returns (i: nat)
    requires InTimeOrder(line)
    ensures i <= |line|
    ensures forall k :: 0 <= k < i ==> line[k].at <= at
    ensures forall k :: i <= k < |line| ==> at <= line[k].at
  {
    if line == [] || line[|line| - 1].at <= at {
      i := |line|;
    } else {
      i := Position(line[..|line| - 1], at);
    }
  }

  lemma Insert(line: seq<Timed>, e: Timed) returns (out: seq<Timed>)
    requires InTimeOrder(line)
    ensures InTimeOrder(out) && multiset(out) == multiset(line) + multiset{e}
  {
    var i := Position(line, e.at);
    out := line[..i] + [e] + line[i..];
    assert line == line[..i] + line[i..];
  }

  lemma {:induction false} Ordered(expected: seq<Timed>) returns (line: seq<Timed>)
    ensures InTimeOrder(line) && multiset(line) == multiset(expected)
  {
    if expected == [] {
      line := [];
    } else {
      var n := |expected| - 1;
      assert expected == expected[..n] + [expected[n]];
      line := Ordered(expected[..n]);
      line := Insert(line, expected[n]);
    }
  }

  // ---- when a result is posted ----

  lemma FoundIn(line: seq<Timed>, starts: seq<nat>, durations: seq<nat>, interval: nat, e: Timed) returns (i: nat)
    requires 0 < |starts| == |durations| && interval > 0 && Timeline(line, starts, durations, interval)
    requires e in Expected(starts, durations, interval)
    ensures i < |line| && line[i] == e
  {
    assert e in multiset(Expected(starts, durations, interval));
    assert e in line;
    i :| 0 <= i < |line| && line[i] == e;
  }

  lemma {:induction false} ArrivedIsTaken(events: seq<Event>, i: nat, j: nat)
    requires i < |events| && events[i] == Arrived(j)
    ensures j in Arrivals(events)
  {
    var n := |events| - 1;
    if i < n {
      assert events[..n][i] == events[i];
      ArrivedIsTaken(events[..n], i, j);
    }
  }

  lemma PostedByTick(line: seq<Timed>, i: nat, k: nat, j: nat)
    requires i < k < |line| && line[i].event == Arrived(j) && line[k].event.Ticked?
    ensures PostedAfter(line, k, j)
  {
    var events := Events(line)[..k + 1];
    CollectKeeps(events);
    ArrivedIsTaken(events, i, j);
    assert Taken(Collect(events)) == Flatten(Collect(events).batches);
  }

  lemma PostedAtClosing(line: seq<Timed>, i: nat, j: nat)
    requires i < |line| && line[i].event == Arrived(j)
    ensures j in Flatten(FlushHeld(Collect(Events(line))).batches)
  {
    StreamKeeps(Events(line));
    ArrivedIsTaken(Events(line), i, j);
  }

  /** After `a` the ticker fires within one interval, or the channel closes first. */
  lemma NextFiring(collecting: nat, closing: nat, a: nat, interval: nat) returns (k: nat)
    requires interval > 0 && collecting <= a && a + interval < closing
    ensures k < (closing - collecting) / interval
    ensures a < collecting + (k + 1) * interval <= a + interval
  {
    k := (a - collecting) / interval;
    var r := (a - collecting) % interval;
    assert a - collecting == k * interval + r;
    assert (k + 1) * interval == k * interval + interval;
    var q := (closing - collecting) / interval;
    assert closing - collecting == q * interval + (closing - collecting) % interval;
    if q <= k { Ascends(q, k, interval); }
  }

  lemma Ascends(a: nat, b: nat, d: nat)
    requires a <= b
    ensures a * d <= b * d
  {
    assert b * d - a * d == (b - a) * d;
  }

  /** Every result is reported within one interval of finishing or of the collector's start,
      whichever is later. */
  lemma ReportBound(line: seq<Timed>, starts: seq<nat>, durations: seq<nat>, interval: nat, j: nat)
    requires j < |starts| == |durations| && interval > 0 && Timeline(line, starts, durations, interval)
    ensures ReportedBy(line, Closing(starts, durations), j, Later(Finish(starts, durations, j), Collecting(starts)) + interval)
  {
    var closing := Closing(starts, durations);
    var i := ArrivalFound(line, starts, durations, interval, j);
    var at := line[i].at;
    if closing <= at + interval {
      PostedAtClosing(line, i, j);
    } else {
      var f := FiresWithin(line, starts, durations, interval, at);
      ReportedByFiring(line, closing, i, f, j, at + interval);
    }
  }

  lemma FiresWithin(line: seq<Timed>, starts: seq<nat>, durations: seq<nat>, interval: nat, at: nat) returns (f: nat)
    requires 0 < |starts| == |durations| && interval > 0 && Timeline(line, starts, durations, interval)
    requires Collecting(starts) <= at && at + interval < Closing(starts, durations)
    ensures f < |line| && line[f].event.Ticked? && at < line[f].at <= at + interval
  {
    var k := NextFiring(Collecting(starts), Closing(starts, durations), at, interval);
    f := FiringFound(line, starts, durations, interval, k);
  }

  lemma ArrivalFound(line: seq<Timed>, starts: seq<nat>, durations: seq<nat>, interval: nat, j: nat) returns (i: nat)
    requires j < |starts| == |durations| && interval > 0 && Timeline(line, starts, durations, interval)
    ensures i < |line| && line[i] == Arrival(starts, durations, j)
  {
    assert Expected(starts, durations, interval)[j] == Arrival(starts, durations, j);
    i := FoundIn(line, starts, durations, interval, Arrival(starts, durations, j));
  }

  lemma FiringFound(line: seq<Timed>, starts: seq<nat>, durations: seq<nat>, interval: nat, k: nat) returns (i: nat)
    requires 0 < |starts| == |durations| && interval > 0 && Timeline(line, starts, durations, interval)
    requires k < Firings(starts, durations, interval)
    ensures i < |line| && line[i] == Firing(starts, interval, k)
  {
    assert Expected(starts, durations, interval)[|starts| + k] == Firing(starts, interval, k);
    i := FoundIn(line, starts, durations, interval, Firing(starts, interval, k));
  }

  lemma ReportedByFiring(line: seq<Timed>, closing: nat, i: nat, f: nat, j: nat, t: nat)
    requires InTimeOrder(line) && i < |line| && f < |line| && line[i].at < line[f].at <= t
    requires line[i].event == Arrived(j) && line[f].event.Ticked?
    ensures ReportedBy(line, closing, j, t)
  {
    PostedByTick(line, i, f, j);
  }

  lemma {:induction false} ClosingIsLast(starts: seq<nat>, durations: seq<nat>, j: nat)
    requires j < |starts| == |durations|
    ensures Finish(starts, durations, j) <= Closing(starts, durations)
  {
    var n := |starts| - 1;
    if j < n { ClosingIsLast(starts[..n], durations[..n], j); }
  }

  /** Nothing is reported before the last admission. */
  lemma NothingBeforeCollecting(line: seq<Timed>, starts: seq<nat>, durations: seq<nat>, interval: nat, j: nat, t: nat)
    requires j < |starts| == |durations| && interval > 0 && Timeline(line, starts, durations, interval)
    requires ReportedBy(line, Closing(starts, durations), j, t)
    ensures t >= Collecting(starts)
  {
    ClosingIsLast(starts, durations, |starts| - 1);
    if i :| 0 <= i < |line| && PostedAfter(line, i, j) && line[i].at <= t {
      assert line[i] in multiset(line);
      ExpectedLate(starts, durations, interval, line[i]);
    }
  }

  lemma ExpectedLate(starts: seq<nat>, durations: seq<nat>, interval: nat, e: Timed)
    requires 0 < |starts| == |durations| && interval > 0 && e in multiset(Expected(starts, durations, interval))
    ensures e.at >= Collecting(starts)
  {
    var i :| 0 <= i < |Expected(starts, durations, interval)| && Expected(starts, durations, interval)[i] == e;
  }

  // ---- the promise ----

  /** In every tick of n jobs, each result is reported within `wait` of its job's end. */
  ghost predicate ReportsWithin(n: nat, m: nat, interval: nat, wait: nat)
    requires n > 0 && interval > 0
  {
    forall starts, durations, line :: IsTick(starts, durations, line, n, m, interval) ==>
      forall j :: 0 <= j < n ==> ReportedBy(line, Closing(starts, durations), j, Finish(starts, durations, j) + wait)
  }

  ghost predicate IsTick(starts: seq<nat>, durations: seq<nat>, line: seq<Timed>, n: nat, m: nat, interval: nat)
    requires n > 0 && interval > 0
  {
    |starts| == n && Admission(starts, durations, m) && Timeline(line, starts, durations, interval)
  }

  /** With two jobs more than slots a result can wait for as long as one likes. */
  lemma SomeResultWaits(n: nat, m: nat, interval: nat, wait: nat) returns (starts: seq<nat>, durations: seq<nat>, line: seq<Timed>)
    requires m > 0 && n >= m + 2 && interval > 0
    ensures IsTick(starts, durations, line, n, m, interval) && forall j :: 0 <= j < n ==> durations[j] > 0
    ensures !ReportedBy(line, Closing(starts, durations), 0, Finish(starts, durations, 0) + wait)
  {
    starts, durations := QuickJobWaits(n, m, wait + 1);
    line := Ordered(Expected(starts, durations, interval));
    if ReportedBy(line, Closing(starts, durations), 0, Finish(starts, durations, 0) + wait) {
      NothingBeforeCollecting(line, starts, durations, interval, 0, Finish(starts, durations, 0) + wait);
      assert false;
    }
  }

  /** The promise "reported within one flush interval of finishing", and any weaker one, holds of
      all ticks of n jobs exactly when at most one job has to wait for a slot. */
  lemma PromiseIff(n: nat, configured: int, interval: nat, wait: nat)
    requires n > 0 && interval > 0 && wait >= interval
    ensures ReportsWithin(n, MaxConcurrent(configured), interval, wait) <==> n <= 1 + if configured > 0 then configured else 10
  {
    var m := MaxConcurrent(configured);
    if n <= m + 1 {
      forall starts, durations, line, j | IsTick(starts, durations, line, n, m, interval) && 0 <= j < n
        ensures ReportedBy(line, Closing(starts, durations), j, Finish(starts, durations, j) + wait)
      {
        NobodyFinishesEarly(starts, durations, m, j);
        ReportBound(line, starts, durations, interval, j);
      }
    } else {
      var starts, durations, line := SomeResultWaits(n, m, interval, wait);
    }
  }
}
