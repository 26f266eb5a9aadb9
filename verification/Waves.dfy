/** How long a tick takes: jobs are admitted in order as soon as one of m slots is free. The
    default concurrency was chosen by counting the waves this forces a batch into. */
module Waves {

  /** How many of the first `i` jobs still run at time `t`. */
  function Busy(starts: seq<nat>, durations: seq<nat>, i: nat, t: nat): nat
    requires i <= |starts| && i <= |durations|
  {
    if i == 0 then 0
    else Busy(starts, durations, i - 1, t) + if starts[i - 1] + durations[i - 1] > t then 1 else 0
  }

  /** Job i starts at the first moment, not before job i - 1, at which a slot is free. */
  ghost predicate Admission(starts: seq<nat>, durations: seq<nat>, m: nat) {
    |starts| == |durations| && InJobOrder(starts) && SlotFree(starts, durations, m) && NoSlotBefore(starts, durations, m)
  }

  predicate InJobOrder(starts: seq<nat>) {
    && (|starts| > 0 ==> starts[0] == 0)
    && (forall i :: 0 < i < |starts| ==> starts[i - 1] <= starts[i])
  }

  predicate SlotFree(starts: seq<nat>, durations: seq<nat>, m: nat)
    requires |starts| == |durations|
  {
    forall i :: 0 < i < |starts| ==> Busy(starts, durations, i, starts[i]) < m
  }

  ghost predicate NoSlotBefore(starts: seq<nat>, durations: seq<nat>, m: nat)
    requires |starts| == |durations|
  {
    forall i, t :: 0 < i < |starts| && starts[i - 1] <= t < starts[i] ==> Busy(starts, durations, i, t) >= m
  }

  lemma {:induction false} StartsAscend(starts: seq<nat>, durations: seq<nat>, m: nat, j: nat, i: nat)
    requires Admission(starts, durations, m) && j <= i < |starts|
    ensures starts[j] <= starts[i]
    decreases i - j
  {
    if j < i { StartsAscend(starts, durations, m, j, i - 1); }
  }

  /** If the first `quiet` jobs are over at `t`, at most the others of the first `i` are busy. */
  lemma {:induction false} BusyAtMost(starts: seq<nat>, durations: seq<nat>, quiet: nat, i: nat, t: nat)
    requires quiet <= i <= |starts| && i <= |durations|
    requires forall j :: 0 <= j < quiet ==> starts[j] + durations[j] <= t
    ensures Busy(starts, durations, i, t) <= i - quiet
  {
    if i > 0 {
      BusyAtMost(starts, durations, if quiet == i then i - 1 else quiet, i - 1, t);
    }
  }

  /** If the jobs from `from` on all run at `t`, at least those are busy. */
  lemma {:induction false} BusyAtLeast(starts: seq<nat>, durations: seq<nat>, from: nat, i: nat, t: nat)
    requires from <= i <= |starts| && i <= |durations|
    requires forall j :: from <= j < i ==> starts[j] + durations[j] > t
    ensures Busy(starts, durations, i, t) >= i - from
  {
    if from < i { BusyAtLeast(starts, durations, from, i - 1, t); }
  }

  /** If job `over` is over at `t`, not all of the first `i` are busy. */
  lemma {:induction false} BusyWithout(starts: seq<nat>, durations: seq<nat>, over: nat, i: nat, t: nat)
    requires over < i <= |starts| && i <= |durations|
    requires starts[over] + durations[over] <= t
    ensures Busy(starts, durations, i, t) <= i - 1
  {
    if over < i - 1 {
      BusyWithout(starts, durations, over, i - 1, t);
    } else {
      BusyAtMost(starts, durations, 0, i - 1, t);
    }
  }

  // ---- every batch of jobs has its schedule ----

  /** Busy looks only at the jobs it counts. */
  lemma {:induction false} BusyLocal(starts: seq<nat>, more: seq<nat>, durations: seq<nat>, others: seq<nat>, i: nat, t: nat)
    requires i <= |starts| && i <= |more| && i <= |durations| && i <= |others|
    requires starts[..i] == more[..i] && durations[..i] == others[..i]
    ensures Busy(starts, durations, i, t) == Busy(more, others, i, t)
  {
    if i > 0 {
      assert starts[..i][i - 1] == more[..i][i - 1] && durations[..i][i - 1] == others[..i][i - 1];
      assert starts[..i - 1] == starts[..i][..i - 1] && more[..i - 1] == more[..i][..i - 1];
      assert durations[..i - 1] == durations[..i][..i - 1] && others[..i - 1] == others[..i][..i - 1];
      BusyLocal(starts, more, durations, others, i - 1, t);
    }
  }

  /** From some moment on nothing runs any more. */
  lemma {:induction false} AllOver(starts: seq<nat>, durations: seq<nat>, i: nat, from: nat) returns (t: nat)
    requires i <= |starts| && i <= |durations|
    ensures t >= from && Busy(starts, durations, i, t) == 0
  {
    t := from;
    if i > 0 {
      var end := starts[i - 1] + durations[i - 1];
      t := AllOver(starts, durations, i - 1, if from < end then end else from);
    }
  }

  /** The first moment from `from` on with a free slot, given that there is one at `t`. */
  lemma {:induction false} FirstFree(starts: seq<nat>, durations: seq<nat>, m: nat, i: nat, from: nat, t: nat) returns (first: nat)
    requires i <= |starts| && i <= |durations| && from <= t && Busy(starts, durations, i, t) < m
    ensures first >= from && Busy(starts, durations, i, first) < m
    ensures forall u :: from <= u < first ==> Busy(starts, durations, i, u) >= m
    decreases t - from
  {
    if Busy(starts, durations, i, from) < m {
      first := from;
    } else {
      first := FirstFree(starts, durations, m, i, from + 1, t);
    }
  }

  lemma AdmitOneMore(starts: seq<nat>, durations: seq<nat>, m: nat, d: nat, next: nat)
    requires Admission(starts, durations, m) && |starts| > 0 && next >= starts[|starts| - 1]
    requires Busy(starts, durations, |starts|, next) < m
    requires forall u :: starts[|starts| - 1] <= u < next ==> Busy(starts, durations, |starts|, u) >= m
    ensures Admission(starts + [next], durations + [d], m)
  {
    StillFree(starts, durations, m, d, next);
    var more, others := starts + [next], durations + [d];
    forall i, t | 0 < i < |more| && more[i - 1] <= t < more[i] ensures Busy(more, others, i, t) >= m {
      StillFull(starts, durations, m, d, next, i, t);
    }
  }

  lemma StillFree(starts: seq<nat>, durations: seq<nat>, m: nat, d: nat, next: nat)
    requires |starts| == |durations| && |starts| > 0 && SlotFree(starts, durations, m)
    requires Busy(starts, durations, |starts|, next) < m
    ensures SlotFree(starts + [next], durations + [d], m)
  {
    var more, others := starts + [next], durations + [d];
    forall i | 0 < i < |more| ensures Busy(more, others, i, more[i]) < m {
      BusyAppend(starts, durations, next, d, i, more[i]);
    }
  }

  lemma StillFull(starts: seq<nat>, durations: seq<nat>, m: nat, d: nat, next: nat, i: nat, t: nat)
    requires |starts| == |durations| && |starts| > 0 && NoSlotBefore(starts, durations, m)
    requires forall u :: starts[|starts| - 1] <= u < next ==> Busy(starts, durations, |starts|, u) >= m
    requires 0 < i <= |starts| && (starts + [next])[i - 1] <= t < (starts + [next])[i]
    ensures Busy(starts + [next], durations + [d], i, t) >= m
  {
    BusyAppend(starts, durations, next, d, i, t);
  }

  lemma BusyAppend(starts: seq<nat>, durations: seq<nat>, next: nat, d: nat, i: nat, t: nat)
    requires i <= |starts| == |durations|
    ensures Busy(starts + [next], durations + [d], i, t) == Busy(starts, durations, i, t)
  {
    assert (starts + [next])[..i] == starts[..i] && (durations + [d])[..i] == durations[..i];
    BusyLocal(starts + [next], starts, durations + [d], durations, i, t);
  }

  /** Whatever the durations, admission in job order gives them start times. */
  lemma {:induction false} ScheduleExists(durations: seq<nat>, m: nat) returns (starts: seq<nat>)
    requires m > 0
    ensures Admission(starts, durations, m)
  {
    if |durations| <= 1 {
      starts := seq(|durations|, _ => 0);
    } else {
      var n := |durations| - 1;
      starts := ScheduleExists(durations[..n], m);
      var t := AllOver(starts, durations[..n], n, starts[n - 1]);
      var next := FirstFree(starts, durations[..n], m, n, starts[n - 1], t);
      AdmitOneMore(starts, durations[..n], m, durations[n], next);
      assert durations == durations[..n] + [durations[n]];
      starts := starts + [next];
    }
  }

  /** A job waits for its predecessor's admission or for the slot of the job m places before it,
      whichever is later. */
  lemma WaitsForOneSlot(starts: seq<nat>, durations: seq<nat>, m: nat, D: nat, i: nat)
    requires Admission(starts, durations, m) && 0 < m <= i < |starts|
    requires forall j :: 0 <= j < |durations| ==> durations[j] <= D
    ensures starts[i] <= starts[i - 1] || starts[i] <= starts[i - m] + D
  {
    var free := starts[i - m] + D;
    if starts[i] > starts[i - 1] && starts[i] > free {
      var t := if free < starts[i - 1] then starts[i - 1] else free;
      forall j | 0 <= j < i - m + 1 ensures starts[j] + durations[j] <= t {
        StartsAscend(starts, durations, m, j, i - m);
      }
      BusyAtMost(starts, durations, i - m + 1, i, t);
      assert false;
    }
  }

  /** The time by which job i's wave is due: D for every m jobs before it. */
  function Due(i: nat, m: nat, D: nat): nat
    requires m > 0
  {
    if i < m then 0 else Due(i - m, m, D) + D
  }

  lemma {:induction false} DueIsWaves(i: nat, m: nat, D: nat)
    requires m > 0
    ensures Due(i, m, D) == (i / m) * D
  {
    if i < m {
      assert i / m == 0;
    } else {
      DueIsWaves(i - m, m, D);
      WaveStep(i, m);
      Distribute((i - m) / m, D);
    }
  }

  lemma Distribute(a: nat, d: nat)
    ensures (a + 1) * d == a * d + d
  {
  }

  lemma {:induction false} OneQuotient(m: nat, k: nat, r: nat, q: nat, r': nat)
    requires r < m && r' < m && k * m + r == q * m + r'
    ensures k == q
  {
    if k > 0 && q > 0 {
      Distribute(k - 1, m);
      Distribute(q - 1, m);
      OneQuotient(m, k - 1, r, q - 1, r');
    } else if k > 0 {
      Distribute(k - 1, m);
    } else if q > 0 {
      Distribute(q - 1, m);
    }
  }

  lemma WaveStep(i: nat, m: nat)
    requires 0 < m <= i
    ensures i / m == (i - m) / m + 1
  {
    var q := (i - m) / m;
    assert i - m == q * m + (i - m) % m;
    assert i == (i / m) * m + i % m;
    Distribute(q, m);
    OneQuotient(m, i / m, i % m, q + 1, (i - m) % m);
  }

  lemma {:induction false} DueAscends(a: nat, b: nat, m: nat, D: nat)
    requires m > 0 && a <= b
    ensures Due(a, m, D) <= Due(b, m, D)
  {
    if b >= m {
      DueAscends(if a < m then 0 else a - m, b - m, m, D);
    }
  }

  lemma {:induction false} StartsWhenDue(starts: seq<nat>, durations: seq<nat>, m: nat, D: nat, i: nat)
    requires Admission(starts, durations, m) && m > 0 && i < |starts|
    requires forall j :: 0 <= j < |durations| ==> durations[j] <= D
    ensures starts[i] <= Due(i, m, D)
  {
    if i > 0 {
      StartsWhenDue(starts, durations, m, D, i - 1);
      DueAscends(i - 1, i, m, D);
      if i < m {
        BusyAtMost(starts, durations, 0, i, starts[i - 1]);
      } else {
        StartsWhenDue(starts, durations, m, D, i - m);
        WaitsForOneSlot(starts, durations, m, D, i);
      }
    }
  }

  /** Job i starts no later than floor(i / m) times the longest duration. */
  lemma StartBound(starts: seq<nat>, durations: seq<nat>, m: nat, D: nat, i: nat)
    requires Admission(starts, durations, m) && m > 0 && i < |starts|
    requires forall j :: 0 <= j < |durations| ==> durations[j] <= D
    ensures starts[i] <= (i / m) * D
  {
    StartsWhenDue(starts, durations, m, D, i);
    DueIsWaves(i, m, D);
  }

  /** All n executions are over within ceil(n / m) waves. */
  lemma TickDuration(starts: seq<nat>, durations: seq<nat>, m: nat, D: nat, i: nat)
    requires Admission(starts, durations, m) && m > 0 && i < |starts|
    requires forall j :: 0 <= j < |durations| ==> durations[j] <= D
    ensures starts[i] + durations[i] <= ((|starts| + m - 1) / m) * D
  {
    StartsWhenDue(starts, durations, m, D, i);
    assert Due(i + m, m, D) == Due(i, m, D) + D;
    DueAscends(i + m, |starts| + m - 1, m, D);
    DueIsWaves(|starts| + m - 1, m, D);
  }

  lemma {:induction false} DueIsReached(starts: seq<nat>, durations: seq<nat>, m: nat, D: nat, i: nat)
    requires Admission(starts, durations, m) && m > 0 && i < |starts|
    requires forall j :: 0 <= j < |durations| ==> durations[j] == D
    ensures starts[i] >= Due(i, m, D)
  {
    if i >= m {
      DueIsReached(starts, durations, m, D, i - m);
      if starts[i] < starts[i - m] + D {
        forall j | i - m <= j < i ensures starts[j] + durations[j] > starts[i] {
          StartsAscend(starts, durations, m, i - m, j);
        }
        BusyAtLeast(starts, durations, i - m, i, starts[i]);
        assert false;
      }
    }
  }

  /** The bound is exact: when every job takes D, job i starts in wave floor(i / m). */
  lemma WavesAreReached(starts: seq<nat>, durations: seq<nat>, m: nat, D: nat, i: nat)
    requires Admission(starts, durations, m) && m > 0 && i < |starts|
    requires forall j :: 0 <= j < |durations| ==> durations[j] == D
    ensures starts[i] == (i / m) * D
  {
    StartBound(starts, durations, m, D, i);
    DueIsReached(starts, durations, m, D, i);
    DueIsWaves(i, m, D);
  }

  // ---- how long results wait for the last admission ----

  /** With at most one job more than slots nobody finishes before the last job is admitted. */
  lemma NobodyFinishesEarly(starts: seq<nat>, durations: seq<nat>, m: nat, j: nat)
    requires Admission(starts, durations, m) && m > 0 && j < |starts| <= m + 1
    ensures starts[|starts| - 1] <= starts[j] + durations[j]
  {
    var last := |starts| - 1;
    var D := starts[j] + durations[j];
    StartsAscend(starts, durations, m, j, last);
    if last > 0 && starts[last] > D {
      forall i | 0 <= i < last ensures starts[i] == 0 {
        FirstWaveAtOnce(starts, durations, m, i);
      }
      if last < m {
        FirstWaveAtOnce(starts, durations, m, last);
      } else {
        BusyWithout(starts, durations, j, last, D);
        assert false;
      }
    }
  }

  lemma {:induction false} FirstWaveAtOnce(starts: seq<nat>, durations: seq<nat>, m: nat, i: nat)
    requires Admission(starts, durations, m) && i < |starts| && i < m
    ensures starts[i] == 0
  {
    if i > 0 {
      FirstWaveAtOnce(starts, durations, m, i - 1);
      BusyAtMost(starts, durations, 0, i, starts[i - 1]);
    }
  }

  function QuickThenLong(n: nat, length: nat): (d: seq<nat>)
    ensures |d| == n && forall j :: 0 <= j < n ==> d[j] == if j == 0 then 1 else length
  {
    seq(n, j => if j == 0 then 1 else length)
  }

  /** One quick job, then jobs of `wait` + 1: a schedule in which the quick one has been over for
      at least `wait` when the last job is admitted. */
  lemma QuickJobWaits(n: nat, m: nat, wait: nat) returns (starts: seq<nat>, durations: seq<nat>)
    requires m > 0 && n >= m + 2
    ensures |starts| == n && Admission(starts, durations, m)
    ensures starts[n - 1] >= starts[0] + durations[0] + wait && forall j :: 0 <= j < n ==> durations[j] > 0
  {
    durations := QuickThenLong(n, wait + 1);
    starts := ScheduleExists(durations, m);
    SlotsTaken(starts, durations, m, wait + 1);
    StartsAscend(starts, durations, m, m + 1, n - 1);
  }

  /** The jobs after the first keep all slots for their whole length. */
  lemma SlotsTaken(starts: seq<nat>, durations: seq<nat>, m: nat, length: nat)
    requires Admission(starts, durations, m) && m + 1 < |starts|
    requires forall j :: 0 < j < |durations| ==> durations[j] == length
    ensures starts[m + 1] >= length
  {
    if starts[m + 1] < length {
      BusyAtLeast(starts, durations, 1, m + 1, starts[m + 1]);
      assert false;
    }
  }
}
