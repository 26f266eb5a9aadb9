/** When an open check can get stuck: all its runs over, nothing in progress, still open. While
    exactly one run is active, whoever ends that run also settles the check. */
module Stuck {
  import opened Records
  import opened Interleaving
  import opened Aggregation
  import opened Guarantees
  import opened Races

  predicate OnlyActive(runs: map<Id, Run>, c: Id, q: Id) {
    forall r :: r in runs && runs[r].checkId == c && Active(runs[r].status) ==> r == q
  }

  /** A finalizer that ended `q` and has counted the check settles it, unless it is over anyway. */
  predicate Honest(s: Sys, x: Tx, c: Id, q: Id)
    requires c in s.checks
  {
    Finalizer(x) && q in x.runW && c in x.counted ==>
      || (x.pc.Settling? && x.pc.check == c)
      || (c in x.checkW && Settled(x.checkW[c]))
      || !Open(s.checks[c].status)
  }

  /** The last active run of the check is `q`, and the check is open only as long as it is. */
  predicate LastRun(s: Sys, c: Id, q: Id) {
    && FanOutOver(s, c) && c in s.checks && Belongs(s, c, q) && OnlyActive(s.runs, c, q)
    && (Open(s.checks[c].status) ==> Active(s.runs[q].status))
    && (forall t :: t in s.txs ==> Honest(s, s.txs[t], c, q))
  }

  // ---- the shapes of transactions hold in every interleaving ----

  predicate Shaped(s: Sys, x: Tx) {
    match x.kind
    case Completing => FinalizerShape(s, x)
    case Sweeping => FinalizerShape(s, x)
    case Claiming(_) => ClaimOk(s, x)
    case Cancelling(_) => CancelOk(s, x)
    case Creating(_) => CreateOk(s, x)
  }

  lemma {:induction false} UnusedId(ids: set<Id>) returns (k: Id)
    ensures forall i :: i in ids ==> i < k
    decreases ids
  {
    k := 0;
    if i :| i in ids {
      var rest := UnusedId(ids - {i});
      k := if i < rest then rest else i + 1;
      assert forall j :: j in ids ==> j == i || j in ids - {i};
    }
  }

  lemma AllShaped(states: seq<Sys>, acts: seq<Action>, i: nat)
    requires Execution(states, acts) && i < |states|
    ensures Inv(states[i]) && forall t :: t in states[i].txs ==> Shaped(states[i], states[i].txs[t])
  {
    var s := states[i];
    var ids := set r | r in s.runs :: s.runs[r].checkId;
    var k := UnusedId(ids);
    forall r | r in s.runs ensures s.runs[r].checkId != k {
      assert s.runs[r].checkId in ids;
    }
    OneRunAggregates(states, acts, k, i);
    forall t | t in s.txs ensures Shaped(s, s.txs[t]) {
      assert KindOk(s, s.txs[t], k);
    }
  }

  // ---- moves ----

  /** Whoever ended the only active run sees none left. */
  lemma SeesNoneLeft(s: Sys, x: Tx, c: Id, q: Id)
    requires OnlyActive(s.runs, c, q) && FinalizerShape(s, x) && q in x.runW
    ensures NoActive(View(s, x), c)
  {
  }

  lemma MoveStaysHonest(s: Sys, t: Id, row: Id, c: Id, q: Id)
    requires c in s.checks && LastRun(s, c, q) && t in s.txs && PcOk(s, s.txs[t]) && Shaped(s, s.txs[t]) && Work(s, t, row).Go?
    ensures Honest(s, Work(s, t, row).tx, c, q)
  {
    var x := s.txs[t];
    if Finalizer(x) {
      assert FinalizerShape(s, x) && Honest(s, x, c, q);
      match x.pc
      case Counting(checks) => CountStaysHonest(s, t, row, c, q);
      case Settling(_, _, _) => SettleStaysHonest(s, t, row, c, q);
      case _ =>
    }
  }

  lemma CountStaysHonest(s: Sys, t: Id, row: Id, c: Id, q: Id)
    requires c in s.checks && t in s.txs && FinalizerShape(s, s.txs[t]) && Honest(s, s.txs[t], c, q) && OnlyActive(s.runs, c, q)
    requires s.txs[t].pc.Counting? && Work(s, t, row).Go?
    ensures Honest(s, Work(s, t, row).tx, c, q)
  {
    if row == c && q in s.txs[t].runW { SeesNoneLeft(s, s.txs[t], c, q); }
  }

  lemma SettleStaysHonest(s: Sys, t: Id, row: Id, c: Id, q: Id)
    requires c in s.checks && t in s.txs && PcOk(s, s.txs[t]) && Honest(s, s.txs[t], c, q)
    requires s.txs[t].pc.Settling? && Work(s, t, row).Go?
    ensures Honest(s, Work(s, t, row).tx, c, q)
  {
  }

  lemma MoveKeepsLastRun(s: Sys, t: Id, row: Id, c: Id, q: Id)
    requires LastRun(s, c, q) && Inv(s) && Enabled(s, Move(t, row)) && Shaped(s, s.txs[t])
    ensures LastRun(Do(s, Move(t, row)), c, q)
  {
    StepAddsNoRun(s, Move(t, row), c);
    if Work(s, t, row).Go? {
      assert TxOk(s, s.txs[t]);
      MoveStaysHonest(s, t, row, c, q);
      SameTablesLastRun(s, s.(txs := s.txs[t := Work(s, t, row).tx]), c, q);
    } else {
      SameTablesLastRun(s, s.(txs := s.txs - {t}), c, q);
    }
  }

  lemma SameTablesLastRun(s: Sys, s': Sys, c: Id, q: Id)
    requires LastRun(s, c, q) && s'.checks == s.checks && s'.runs == s.runs && FanOutOver(s', c)
    requires forall t :: t in s'.txs ==> (t in s.txs && s'.txs[t] == s.txs[t]) || Honest(s, s'.txs[t], c, q)
    ensures LastRun(s', c, q)
  {
    HonestLocal(s, s', c, q);
  }

  lemma HonestLocal(s: Sys, s': Sys, c: Id, q: Id)
    requires c in s.checks && s'.checks == s.checks && forall t :: t in s.txs ==> Honest(s, s.txs[t], c, q)
    ensures forall t :: t in s'.txs ==> (t in s.txs && s'.txs[t] == s.txs[t]) || Honest(s, s'.txs[t], c, q) ==> Honest(s', s'.txs[t], c, q)
  {
  }

  // ---- commits ----

  /** If the commit ends the last active run, it takes the check out of the open states. */
  lemma CommitClosesCheck(s: Sys, x: Tx, c: Id, q: Id)
    requires c in s.checks && Belongs(s, c, q) && (Open(s.checks[c].status) ==> Active(s.runs[q].status)) && Honest(s, x, c, q)
    requires WritesOk(s, x) && CheckWritesOk(s, x) && Shaped(s, x) && x.pc.Ready?
    ensures Open(Committed(s, x)[c].status) ==> Active(View(s, x)[q].status)
  {
    if q in x.runW && Finalizer(x) {
      assert x.runW[q].checkId == c && c in x.counted + Queue(x.pc);
    }
  }

  lemma CommitKeepsOnlyActive(s: Sys, x: Tx, c: Id, q: Id)
    requires OnlyActive(s.runs, c, q) && WritesOk(s, x) && x.kind != Creating(c)
    ensures OnlyActive(View(s, x), c, q)
  {
  }

  lemma CommitKeepsLastRun(s: Sys, t: Id, c: Id, q: Id)
    requires LastRun(s, c, q) && Inv(s) && Enabled(s, Commit(t)) && Shaped(s, s.txs[t])
    ensures LastRun(Do(s, Commit(t)), c, q)
  {
    var x := s.txs[t];
    var s' := Do(s, Commit(t));
    assert TxOk(s, x);
    StepAddsNoRun(s, Commit(t), c);
    CommitClosesCheck(s, x, c, q);
    CommitKeepsOnlyActive(s, x, c, q);
    CheckWritesKeep(s, x);
    RunWritesKeep(s, x);
    forall u | u in s'.txs ensures Honest(s', s'.txs[u], c, q) {
      assert Honest(s, s.txs[u], c, q);
    }
  }

  lemma OtherKeepsLastRun(s: Sys, a: Action, c: Id, q: Id)
    requires LastRun(s, c, q) && Inv(s) && Enabled(s, a) && !a.Move? && !a.Commit?
    ensures LastRun(Do(s, a), c, q)
  {
    var s' := Do(s, a);
    StepAddsNoRun(s, a, c);
    forall u | u in s'.txs ensures Honest(s', s'.txs[u], c, q) {
      if u in s.txs && s.txs[u] == s'.txs[u] { assert Honest(s, s.txs[u], c, q); }
    }
  }

  lemma {:induction false} LastRunForGood(states: seq<Sys>, acts: seq<Action>, c: Id, q: Id, i: nat, j: nat)
    requires Execution(states, acts) && i <= j < |states| && LastRun(states[i], c, q)
    ensures LastRun(states[j], c, q)
    decreases j
  {
    if i < j {
      LastRunForGood(states, acts, c, q, i, j - 1);
      AllShaped(states, acts, j - 1);
      var a := acts[j - 1];
      assert states[j] == Do(states[j - 1], a);
      match a
      case Move(t, row) => MoveKeepsLastRun(states[j - 1], t, row, c, q);
      case Commit(t) => CommitKeepsLastRun(states[j - 1], t, c, q);
      case _ => OtherKeepsLastRun(states[j - 1], a, c, q);
    }
  }

  /** An open check with an active run can end up stuck open exactly when a second run is active. */
  lemma SticksIffTwoActive(states: seq<Sys>, acts: seq<Action>, c: Id, q: Id)
    requires Execution(states, acts) && states[|acts|].txs == map[]
    requires c in states[|acts|].checks && Open(states[|acts|].checks[c].status)
    requires Belongs(states[|acts|], c, q) && Active(states[|acts|].runs[q].status)
    ensures CanStick(states[|acts|], c) <==> !OnlyActive(states[|acts|].runs, c, q)
  {
    var n := |acts|;
    var s := states[n];
    EveryInterleaving(states, acts, n);
    if !OnlyActive(s.runs, c, q) {
      var r :| r in s.runs && s.runs[r].checkId == c && Active(s.runs[r].status) && r != q;
      TwoActiveCanStick(s, c, r, q);
    } else if more, next :| Sticking(s, c, more, next) {
      ExecutionContinues(states, acts, more, next);
      LastRunForGood(states + more[1..], acts + next, c, q, n, n + |next|);
      assert false;
    }
  }
}
