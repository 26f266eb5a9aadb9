/** What holds in every state of every interleaving of the store's transactions. */
module Guarantees {
  import opened Records
  import Lifecycle
  import opened Interleaving
  import opened Aggregation

  /** In every state of every interleaving. */
  lemma {:induction false} EveryInterleaving(states: seq<Sys>, acts: seq<Action>, i: nat)
    requires Execution(states, acts) && i < |states|
    ensures Inv(states[i])
  {
    if i > 0 {
      EveryInterleaving(states, acts, i - 1);
      var a := acts[i - 1];
      StepKeepsInv(states[i - 1], a);
    }
  }

  /** A committed check marked completed, partial or failed never has an active run. */
  lemma SettledIsQuiet(states: seq<Sys>, acts: seq<Action>, i: nat, c: Id)
    requires Execution(states, acts) && i < |states|
    requires c in states[i].checks
    requires states[i].checks[c].status == Completed || states[i].checks[c].status == Partial || states[i].checks[c].status == Failed
    ensures exists r :: r in states[i].runs && states[i].runs[r].checkId == c
    ensures forall r :: r in states[i].runs && states[i].runs[r].checkId == c ==>
              states[i].runs[r].status == Done || states[i].runs[r].status == Errored || states[i].runs[r].status == TimedOut
  {
    EveryInterleaving(states, acts, i);
    var s := states[i];
    assert HasRun(s.runs, c) && NoActive(s.runs, c);
  }

  /** A run that is out with a node belongs to a check past pending, at every moment. */
  lemma ClaimedIsStarted(states: seq<Sys>, acts: seq<Action>, i: nat, r: Id)
    requires Execution(states, acts) && i < |states| && r in states[i].runs && states[i].runs[r].status.Dispatched?
    ensures states[i].runs[r].checkId in states[i].checks && !states[i].checks[states[i].runs[r].checkId].status.Pending?
  {
    EveryInterleaving(states, acts, i);
  }

  function Tables(s: Sys): Db {
    Db(s.checks, s.runs, [])
  }

  lemma CommitNeverRegresses(s: Sys, t: Id)
    requires Inv(s) && t in s.txs && s.txs[t].pc.Ready?
    ensures Lifecycle.NoRegress(Tables(s), Tables(Do(s, Commit(t))))
  {
    var x := s.txs[t];
    assert TxOk(s, x);
    RunWritesKeep(s, x);
    CheckWritesKeep(s, x);
    assert Tables(Do(s, Commit(t))) == Db(Committed(s, x), View(s, x), []);
  }

  lemma RunWritesKeep(s: Sys, x: Tx)
    requires WritesOk(s, x)
    ensures Lifecycle.RunsKept(s.runs, View(s, x))
  {
  }

  lemma CheckWritesKeep(s: Sys, x: Tx)
    requires CheckWritesOk(s, x)
    ensures Lifecycle.ChecksKept(s.checks, Committed(s, x))
  {
  }

  lemma StepNeverRegresses(s: Sys, a: Action)
    requires Inv(s) && Enabled(s, a)
    ensures Lifecycle.NoRegress(Tables(s), Tables(Do(s, a)))
  {
    if a.Commit? {
      CommitNeverRegresses(s, a.t);
    } else if !a.AddCheck? {
      assert Tables(Do(s, a)) == Tables(s);
    }
  }

  /** Interleaving takes back no more than serial runs do: cancelled is never left, a settled
      check is never pending, running or cancelled again, a run's rank never rises. */
  lemma {:induction false} NothingRegresses(states: seq<Sys>, acts: seq<Action>, i: nat, j: nat)
    requires Execution(states, acts) && i <= j < |states|
    ensures Lifecycle.NoRegress(Tables(states[i]), Tables(states[j]))
    decreases j
  {
    if i < j {
      NothingRegresses(states, acts, i, j - 1);
      EveryInterleaving(states, acts, j - 1);
      var a := acts[j - 1];
      StepNeverRegresses(states[j - 1], a);
      Lifecycle.NoRegressTrans(Tables(states[i]), Tables(states[j - 1]), Tables(states[j]));
    }
  }

  /** However claims overlap, committed claims hand out disjoint sets of runs, each run to its
      own node, and each run is still queued when the claim that hands it out commits. */
  lemma HandedOutOnce(states: seq<Sys>, acts: seq<Action>, i: nat)
    requires Execution(states, acts) && i < |acts|
    ensures var log := states[i + 1].handouts;
            && (forall j, k :: 0 <= j < k < |log| ==> log[j].runs !! log[k].runs)
            && (forall j, r :: 0 <= j < |log| && r in log[j].runs ==> r in states[i + 1].runs && states[i + 1].runs[r].nodeId == log[j].node)
    ensures acts[i].Commit? && states[i].txs[acts[i].t].kind.Claiming? ==>
              forall r :: r in states[i].txs[acts[i].t].runLocks ==> r in states[i].runs && states[i].runs[r].status.Queued?
  {
    EveryInterleaving(states, acts, i);
    EveryInterleaving(states, acts, i + 1);
    var a := acts[i];
    if a.Commit? && states[i].txs[a.t].kind.Claiming? {
      assert TxOk(states[i], states[i].txs[a.t]);
    }
  }

  // ---- the aggregate ----

  /** In the statuses of the runs. */
  lemma ShowsIt(s: Sys, k: Id)
    ensures AggInv(s, k) && k in s.checks && s.checks[k].status != Cancelled ==> Shows(s.checks[k].status, s.runs, k)
  {
    if AggInv(s, k) && k in s.checks { AgreesIsShows(s.checks[k].status, s.runs, k); }
  }

  /** If every count of the check is taken alone, the committed check agrees with its runs in
      every state of the interleaving, exactly as when transactions run one after the other. */
  lemma {:induction false} CountingAloneAggregates(states: seq<Sys>, acts: seq<Action>, k: Id, i: nat)
    requires Execution(states, acts) && CountingAlone(states, acts, k) && i < |states|
    ensures AggInv(states[i], k)
    ensures k in states[i].checks && states[i].checks[k].status != Cancelled ==> Shows(states[i].checks[k].status, states[i].runs, k)
  {
    ShowsIt(states[i], k);
    if i > 0 {
      CountingAloneAggregates(states, acts, k, i - 1);
      var a := acts[i - 1];
      StepKeepsAgg(states[i - 1], a, k);
    }
  }

  // ---- checks with one run ----

  predicate OneRun(runs: map<Id, Run>, k: Id) {
    forall r, q :: r in runs && q in runs && runs[r].checkId == k && runs[q].checkId == k ==> r == q
  }

  /** The row lock on the only run makes every count of the check a lone one. */
  lemma OneRunCountsAlone(s: Sys, a: Action, k: Id)
    requires Inv(s) && KindsOk(s, k) && OneRun(s.runs, k)
    ensures CountsAlone(s, a, k)
  {
    if a.Move? && a.row == k && a.t in s.txs && s.txs[a.t].pc.Counting? && k in s.txs[a.t].pc.checks {
      var x := s.txs[a.t];
      assert TxOk(s, x) && KindOk(s, x, k);
      assert k in x.counted + Queue(x.pc);
      var r := TouchedRun(s, x, k);
      forall u | u in s.txs && u != a.t && Finalizer(s.txs[u]) ensures !Touches(s.txs[u], k) {
        assert TxOk(s, s.txs[u]) && KindOk(s, s.txs[u], k) && Apart(x, s.txs[u]);
        if Touches(s.txs[u], k) {
          var q := TouchedRun(s, s.txs[u], k);
        }
      }
    }
  }

  lemma TouchedRun(s: Sys, x: Tx, k: Id) returns (r: Id)
    requires TxOk(s, x) && KindOk(s, x, k) && Finalizer(x) && Touches(x, k)
    ensures r in x.runLocks && r in s.runs && s.runs[r].checkId == k
  {
    r :| r in x.runW && x.runW[r].checkId == k;
  }

  /** A check that never got a second run agrees with its runs in every state of every
      interleaving, whatever else is going on. */
  lemma {:induction false} OneRunAggregates(states: seq<Sys>, acts: seq<Action>, k: Id, i: nat)
    requires Execution(states, acts) && i < |states| && OneRun(states[i].runs, k)
    ensures AggInv(states[i], k)
    ensures k in states[i].checks && states[i].checks[k].status != Cancelled ==> Shows(states[i].checks[k].status, states[i].runs, k)
  {
    ShowsIt(states[i], k);
    if i > 0 {
      NothingRegresses(states, acts, i - 1, i);
      OneRunAggregates(states, acts, k, i - 1);
      var a := acts[i - 1];
      OneRunCountsAlone(states[i - 1], a, k);
      StepKeepsAgg(states[i - 1], a, k);
    }
  }
}
