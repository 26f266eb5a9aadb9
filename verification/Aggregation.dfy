/** When interleaved transactions still leave a check showing the aggregate of its runs:
    whenever no transaction counts the check's runs while another one has ended some of them
    without having committed yet. Every step keeps it. */
module Aggregation {
  import opened Records
  import opened Interleaving

  predicate Finalizer(x: Tx) {
    x.kind.Completing? || x.kind.Sweeping?
  }

  /** `x` holds an uncommitted version of one of the check's runs. */
  predicate Touches(x: Tx, c: Id) {
    exists r :: r in x.runW && x.runW[r].checkId == c
  }

  /** The condition, as a guard on counting the runs of check `k`: the only statement it
      restricts. */
  predicate CountsAlone(s: Sys, a: Action, k: Id) {
    a.Move? && a.row == k && a.t in s.txs && s.txs[a.t].pc.Counting? && k in s.txs[a.t].pc.checks ==>
      forall u :: u in s.txs && u != a.t && Finalizer(s.txs[u]) ==> !Touches(s.txs[u], k)
  }

  ghost predicate CountingAlone(states: seq<Sys>, acts: seq<Action>, k: Id)
    requires |states| == |acts| + 1
  {
    forall i {:trigger acts[i]} :: 0 <= i < |acts| ==> CountsAlone(states[i], acts[i], k)
  }

  function Queue(pc: Pc): set<Id> {
    match pc
    case Expiring(_, hit) => hit
    case Counting(checks) => checks
    case Settling(_, _, checks) => checks
    case _ => {}
  }

  /** What counting a check came to, seen from the transaction that counted. */
  predicate CountedOk(s: Sys, x: Tx, c: Id) {
    && c in s.checks
    && (if x.pc.Settling? && x.pc.check == c then NoActive(View(s, x), c) && x.pc.verdict == Verdict(View(s, x), c)
        else if c in x.checkW then NoActive(View(s, x), c) && x.checkW[c] == Verdict(View(s, x), c)
        else s.checks[c].status.Cancelled? || !NoActive(View(s, x), c))
  }

  predicate FinalizerOk(s: Sys, x: Tx, k: Id) {
    FinalizerShape(s, x) && (k in x.counted ==> CountedOk(s, x, k))
  }

  /** A finalizer has counted, or will count, exactly the checks whose runs it has ended. */
  predicate FinalizerShape(s: Sys, x: Tx) {
    && (forall r :: r in x.runW ==> r in s.runs && !Active(x.runW[r].status) && x.runW[r].checkId in x.counted + Queue(x.pc))
    && (forall c :: c in x.counted + Queue(x.pc) ==> Touches(x, c))
    && (x.pc.MarkRun? ==> x.runW == map[])
    && (x.pc.MarkRun? || x.pc.Expiring? ==> x.counted == {})
    && x.checkW.Keys <= x.counted
    && x.counted !! Queue(x.pc)
    && (x.pc.Settling? ==> x.pc.check in x.counted && x.pc.check !in x.checkW)
  }

  predicate ClaimOk(s: Sys, x: Tx) {
    && (forall r :: r in x.runW ==> x.runW[r].status.Dispatched?)
    && (forall c :: c in x.checkW ==> x.checkW[c].Running? && Touches(x, c))
    && (x.pc.Starting? ==> forall c :: c in x.pc.checks ==> Touches(x, c))
    && (x.runW == map[] ==> x.checkW == map[])
  }

  predicate CancelOk(s: Sys, x: Tx)
    requires x.kind.Cancelling?
  {
    && (if x.pc.CancelMark? then x.runW == map[] && x.checkW == map[] else x.checkW == map[x.kind.check := Cancelled])
    && (forall r :: r in x.runW ==> r in s.runs && x.runW[r].checkId == x.kind.check && Active(s.runs[r].status))
    && (x.pc.CancelRuns? ==> forall r :: r in x.pc.rows ==> r in s.runs && s.runs[r].checkId == x.kind.check)
  }

  predicate CreateOk(s: Sys, x: Tx) {
    forall r :: r in x.runW ==> r !in s.runs && x.runW[r].status.Queued?
  }

  predicate KindOk(s: Sys, x: Tx, k: Id) {
    && (!Finalizer(x) ==> x.counted == {})
    && match x.kind
       case Completing => FinalizerOk(s, x, k)
       case Sweeping => FinalizerOk(s, x, k)
       case Claiming(_) => ClaimOk(s, x)
       case Cancelling(_) => CancelOk(s, x)
       case Creating(_) => CreateOk(s, x)
  }

  predicate ShowsAggregate(s: Sys, k: Id) {
    k in s.checks ==> Agrees(s.checks[k].status, s.runs, k)
  }

  predicate AggInv(s: Sys, k: Id) {
    && Inv(s)
    && ShowsAggregate(s, k)
    && KindsOk(s, k)
    && CountsApart(s, k)
  }

  predicate KindsOk(s: Sys, k: Id) {
    forall t :: t in s.txs ==> KindOk(s, s.txs[t], k)
  }

  /** At most one open transaction has counted the check. */
  predicate CountsApart(s: Sys, k: Id) {
    forall t, u :: t in s.txs && u in s.txs && t != u ==> !(k in s.txs[t].counted && k in s.txs[u].counted)
  }

  // ---- moves ----

  lemma MarkMove(s: Sys, t: Id, row: Id, k: Id)
    requires t in s.txs && WritesOk(s, s.txs[t]) && PcOk(s, s.txs[t]) && KindOk(s, s.txs[t], k) && s.txs[t].pc.MarkRun? && Work(s, t, row).Go?
    ensures KindOk(s, Work(s, t, row).tx, k)
  {
    var x := s.txs[t];
    var y := Work(s, t, row).tx;
    assert y.runW == map[x.pc.run := y.runW[x.pc.run]];
    assert Touches(y, s.runs[x.pc.run].checkId);
  }

  lemma ExpireMove(s: Sys, t: Id, row: Id, k: Id)
    requires t in s.txs && WritesOk(s, s.txs[t]) && PcOk(s, s.txs[t]) && KindOk(s, s.txs[t], k) && s.txs[t].pc.Expiring? && Work(s, t, row).Go?
    ensures KindOk(s, Work(s, t, row).tx, k)
  {
    var x := s.txs[t];
    var y := Work(s, t, row).tx;
    if x.pc.rows == {} || !Active(s.runs[row].status) {
      assert y.runW == x.runW && forall c :: Touches(y, c) == Touches(x, c);
    } else {
      ExpireKeepsShape(s, x, y, row);
    }
  }

  lemma ExpireKeepsShape(s: Sys, x: Tx, y: Tx, row: Id)
    requires FinalizerShape(s, x) && x.pc.Expiring? && row in s.runs
    requires y == WriteRun(x, row, s.runs[row].(status := TimedOut)).(pc := Expiring(x.pc.rows - {row}, x.pc.hit + {s.runs[row].checkId}))
    requires row in x.runW ==> x.runW[row].checkId == s.runs[row].checkId
    ensures FinalizerShape(s, y)
  {
    forall c | c in y.counted + Queue(y.pc) ensures Touches(y, c) {
      if c == s.runs[row].checkId {
        assert y.runW[row].checkId == c;
      } else {
        assert c in x.counted + Queue(x.pc) && Touches(x, c);
        var r :| r in x.runW && x.runW[r].checkId == c;
        assert r in y.runW && y.runW[r].checkId == c;
      }
    }
  }

  /** Counting shows the transaction what it sees: it settles on that verdict or leaves the
      check alone. */
  lemma CountSays(s: Sys, x: Tx, y: Tx, row: Id)
    requires HasRun(s.runs, row) && row in s.checks && row !in x.checkW && y.checkW == x.checkW && y.runW == x.runW
    requires if NoActive(View(s, x), row) then y.pc.Settling? && y.pc.check == row && y.pc.verdict == Verdict(View(s, x), row) else !y.pc.Settling?
    ensures CountedOk(s, y, row)
  {
    assert View(s, y) == View(s, x);
  }

  lemma CountKeepsShape(s: Sys, x: Tx, y: Tx, row: Id)
    requires FinalizerShape(s, x) && x.pc.Counting? && row in x.pc.checks
    requires y.runW == x.runW && y.checkW == x.checkW && y.counted == x.counted + {row}
    requires y.pc == Counting(x.pc.checks - {row}) || (y.pc.Settling? && y.pc.check == row && y.pc.checks == x.pc.checks - {row})
    ensures FinalizerShape(s, y)
  {
    assert y.counted + Queue(y.pc) == x.counted + Queue(x.pc);
    forall c | c in y.counted + Queue(y.pc) ensures Touches(y, c) {
      assert Touches(x, c);
    }
  }

  lemma CountMove(s: Sys, t: Id, row: Id, k: Id)
    requires t in s.txs && TablesOk(s) && PcOk(s, s.txs[t]) && KindOk(s, s.txs[t], k) && s.txs[t].pc.Counting? && Work(s, t, row).Go?
    ensures KindOk(s, Work(s, t, row).tx, k)
  {
    var x := s.txs[t];
    var y := Work(s, t, row).tx;
    if x.pc.checks != {} {
      CountKeepsShape(s, x, y, row);
      if row == k {
        assert HasRun(s.runs, k);
        CountSays(s, x, y, k);
      } else if k in x.counted {
        assert View(s, y) == View(s, x);
      }
    } else {
      assert View(s, y) == View(s, x);
      assert forall c :: Touches(y, c) == Touches(x, c);
    }
  }

  lemma SettleMove(s: Sys, t: Id, row: Id, k: Id)
    requires t in s.txs && WritesOk(s, s.txs[t]) && PcOk(s, s.txs[t]) && KindOk(s, s.txs[t], k) && s.txs[t].pc.Settling? && Work(s, t, row).Go?
    ensures KindOk(s, Work(s, t, row).tx, k)
  {
    var x := s.txs[t];
    var y := Work(s, t, row).tx;
    assert View(s, y) == View(s, x);
    SettleKeepsShape(s, x, y);
  }

  lemma SettleKeepsShape(s: Sys, x: Tx, y: Tx)
    requires FinalizerShape(s, x) && x.pc.Settling? && y.pc == Counting(x.pc.checks)
    requires y.runW == x.runW && y.counted == x.counted && y.checkW.Keys <= x.checkW.Keys + {x.pc.check}
    ensures FinalizerShape(s, y)
  {
    assert forall c :: Touches(y, c) == Touches(x, c);
  }

  lemma ClaimMove(s: Sys, t: Id, row: Id, k: Id)
    requires t in s.txs && WritesOk(s, s.txs[t]) && PcOk(s, s.txs[t]) && KindOk(s, s.txs[t], k) && s.txs[t].kind.Claiming? && Work(s, t, row).Go?
    ensures KindOk(s, Work(s, t, row).tx, k)
  {
    if s.txs[t].pc.StartScan? {
      StartScanMove(s, t, row);
    } else if !s.txs[t].pc.Dispatching? {
      StartingMove(s, t, row);
    }
  }

  lemma StartingMove(s: Sys, t: Id, row: Id)
    requires t in s.txs && PcOk(s, s.txs[t]) && s.txs[t].kind.Claiming? && ClaimOk(s, s.txs[t]) && Work(s, t, row).Go?
    requires !s.txs[t].pc.StartScan? && !s.txs[t].pc.Dispatching?
    ensures ClaimOk(s, Work(s, t, row).tx)
  {
    var x := s.txs[t];
    var y := Work(s, t, row).tx;
    assert y.runW == x.runW;
    assert forall c :: Touches(y, c) == Touches(x, c);
  }

  lemma StartScanMove(s: Sys, t: Id, row: Id)
    requires t in s.txs && s.txs[t].pc.StartScan? && Work(s, t, row).Go? && ClaimOk(s, s.txs[t])
    ensures ClaimOk(s, Work(s, t, row).tx)
  {
    var x := s.txs[t];
    var y := Work(s, t, row).tx;
    assert forall c :: Touches(y, c) == Touches(x, c);
    forall c | c in y.pc.checks ensures Touches(y, c) {
      var r :| r in x.runW && x.runW[r].checkId == c;
    }
  }

  lemma CancelMove(s: Sys, t: Id, row: Id, k: Id)
    requires t in s.txs && WritesOk(s, s.txs[t]) && PcOk(s, s.txs[t]) && KindOk(s, s.txs[t], k) && s.txs[t].kind.Cancelling? && Work(s, t, row).Go?
    ensures KindOk(s, Work(s, t, row).tx, k)
  {
  }

  lemma InsertMove(s: Sys, t: Id, row: Id, k: Id)
    requires t in s.txs && KindOk(s, s.txs[t], k) && s.txs[t].pc.Inserting? && Work(s, t, row).Go?
    ensures KindOk(s, Work(s, t, row).tx, k)
  {
  }

  lemma MoveKeepsKind(s: Sys, t: Id, row: Id, k: Id)
    requires t in s.txs && TablesOk(s) && TxOk(s, s.txs[t]) && KindOk(s, s.txs[t], k) && Work(s, t, row).Go?
    ensures KindOk(s, Work(s, t, row).tx, k)
  {
    match s.txs[t].pc
    case MarkRun(_, _, _) => MarkMove(s, t, row, k);
    case Expiring(_, _) => ExpireMove(s, t, row, k);
    case Counting(_) => CountMove(s, t, row, k);
    case Settling(_, _, _) => SettleMove(s, t, row, k);
    case Selecting(_, _) => ClaimMove(s, t, row, k);
    case Dispatching => ClaimMove(s, t, row, k);
    case StartScan => ClaimMove(s, t, row, k);
    case Starting(_) => ClaimMove(s, t, row, k);
    case CancelMark(_) => CancelMove(s, t, row, k);
    case CancelScan => CancelMove(s, t, row, k);
    case CancelRuns(_) => CancelMove(s, t, row, k);
    case Inserting(_) => InsertMove(s, t, row, k);
  }

  /** Only counting a check adds to what a transaction has counted. */
  lemma WorkCounts(s: Sys, t: Id, row: Id)
    requires t in s.txs && Work(s, t, row).Go?
    ensures var x := s.txs[t];
            Work(s, t, row).tx.counted == if x.pc.Counting? && row in x.pc.checks then x.counted + {row} else x.counted
  {
  }

  lemma KindLocal(s: Sys, s': Sys, x: Tx, k: Id)
    requires s.checks == s'.checks && s.runs == s'.runs
    ensures KindOk(s, x, k) == KindOk(s', x, k)
  {
    assert View(s, x) == View(s', x);
    assert CountedOk(s, x, k) == CountedOk(s', x, k);
  }

  lemma MoveKeepsKinds(s: Sys, t: Id, row: Id, k: Id)
    requires Inv(s) && KindsOk(s, k) && Enabled(s, Move(t, row))
    ensures KindsOk(Do(s, Move(t, row)), k)
  {
    var s' := Do(s, Move(t, row));
    forall u | u in s'.txs ensures KindOk(s', s'.txs[u], k) {
      KindLocal(s, s', s'.txs[u], k);
      if u == t {
        assert TxOk(s, s.txs[t]);
        MoveKeepsKind(s, t, row, k);
      }
    }
  }

  lemma NobodyElseCounted(s: Sys, t: Id, u: Id, k: Id)
    requires KindsOk(s, k) && t in s.txs && u in s.txs && u != t && CountsAlone(s, Move(t, k), k)
    ensures s.txs[t].pc.Counting? && k in s.txs[t].pc.checks ==> k !in s.txs[u].counted
  {
    assert KindOk(s, s.txs[u], k);
    if k in s.txs[u].counted { assert k in s.txs[u].counted + Queue(s.txs[u].pc); }
  }

  lemma MoveKeepsCountsApart(s: Sys, t: Id, row: Id, k: Id)
    requires KindsOk(s, k) && CountsApart(s, k) && Enabled(s, Move(t, row)) && CountsAlone(s, Move(t, row), k)
    ensures CountsApart(Do(s, Move(t, row)), k)
  {
    if Work(s, t, row).Go? {
      WorkCounts(s, t, row);
      var y := Work(s, t, row).tx;
      forall u | u in s.txs && u != t ensures !(k in y.counted && k in s.txs[u].counted) {
        if row == k { NobodyElseCounted(s, t, u, k); }
      }
    }
  }

  // ---- commits ----

  /** Another commit leaves what `y` counted as it was. */
  lemma CommitKeepsCount(s: Sys, x: Tx, y: Tx, k: Id)
    requires TablesOk(s) && TxOk(s, x) && TxOk(s, y) && KindOk(s, x, k) && KindOk(s, y, k) && Apart(x, y)
    requires x.pc.Ready? && !(k in x.counted && k in y.counted) && Finalizer(y) && k in y.counted
    ensures CountedOk(AfterCommit(s, x), y, k)
  {
    var s' := AfterCommit(s, x);
    assert CountedOk(s, y, k);
    match x.kind {
      case Completing => FinalizerElsewhere(s, x, y, k);
      case Sweeping => FinalizerElsewhere(s, x, y, k);
      case Claiming(_) => ClaimHarmless(s, x, y, k);
      case Cancelling(_) => CancelHarmless(s, x, y, k);
      case Creating(_) => CreateElsewhere(s, x, y, k);
    }
  }

  /** If the commit touches no run of the check, nothing the count relied on changes. */
  lemma UntouchedCount(s: Sys, x: Tx, y: Tx, k: Id)
    requires WritesOk(s, x) && WritesOk(s, y) && CountedOk(s, y, k) && !Touches(x, k) && k !in x.checkW
    ensures CountedOk(AfterCommit(s, x), y, k)
  {
    var s' := AfterCommit(s, x);
    SameRunsOf(View(s, y), View(s', y), k);
  }

  lemma SameRunsOf(runs: map<Id, Run>, runs': map<Id, Run>, c: Id)
    requires forall r :: r in runs && runs[r].checkId == c ==> r in runs' && runs'[r] == runs[r]
    requires forall r :: r in runs' && runs'[r].checkId == c ==> r in runs && runs[r] == runs'[r]
    ensures HasRun(runs, c) == HasRun(runs', c) && NoActive(runs, c) == NoActive(runs', c) && Verdict(runs, c) == Verdict(runs', c)
  {
    assert NoFailure(runs, c) == NoFailure(runs', c);
    assert NoSuccess(runs, c) == NoSuccess(runs', c);
  }

  lemma FinalizerElsewhere(s: Sys, x: Tx, y: Tx, k: Id)
    requires WritesOk(s, x) && WritesOk(s, y) && FinalizerShape(s, x) && CountedOk(s, y, k)
    requires x.pc.Ready? && k !in x.counted
    ensures CountedOk(AfterCommit(s, x), y, k)
  {
    UntouchedCount(s, x, y, k);
  }

  lemma CreateElsewhere(s: Sys, x: Tx, y: Tx, k: Id)
    requires WritesOk(s, x) && WritesOk(s, y) && CreateOk(s, x) && x.kind.Creating? && FinalizerShape(s, y) && k in y.counted
    requires CountedOk(s, y, k)
    ensures CountedOk(AfterCommit(s, x), y, k)
  {
    assert k in y.counted + Queue(y.pc);
    assert Touches(y, k);
    var r :| r in y.runW && y.runW[r].checkId == k;
    assert r in s.runs && s.runs[r].checkId == k;
    assert HasRun(s.runs, k);
    UntouchedCount(s, x, y, k);
  }

  lemma ClaimHarmless(s: Sys, x: Tx, y: Tx, k: Id)
    requires WritesOk(s, x) && CheckWritesOk(s, x) && WritesOk(s, y) && ClaimOk(s, x) && x.kind.Claiming? && Apart(x, y)
    requires FinalizerShape(s, y) && k in y.counted && CountedOk(s, y, k)
    ensures CountedOk(AfterCommit(s, x), y, k)
  {
    if NoActive(View(s, y), k) {
      UntouchedCount(s, x, y, k);
    } else {
      ClaimStaysActive(s, x, y, k);
    }
  }

  lemma ClaimStaysActive(s: Sys, x: Tx, y: Tx, k: Id)
    requires WritesOk(s, x) && WritesOk(s, y) && ClaimOk(s, x) && x.kind.Claiming? && !NoActive(View(s, y), k)
    ensures !NoActive(View(AfterCommit(s, x), y), k)
  {
    var s' := AfterCommit(s, x);
    var r :| r in View(s, y) && View(s, y)[r].checkId == k && Active(View(s, y)[r].status);
    assert r in View(s', y) && View(s', y)[r].checkId == k && Active(View(s', y)[r].status);
  }

  lemma CancelHarmless(s: Sys, x: Tx, y: Tx, k: Id)
    requires x.kind.Cancelling? && WritesOk(s, x) && WritesOk(s, y) && CancelOk(s, x) && Apart(x, y)
    requires x.pc.Ready? && CountedOk(s, y, k)
    ensures CountedOk(AfterCommit(s, x), y, k)
  {
    if x.kind.check != k {
      assert !Touches(x, k);
      UntouchedCount(s, x, y, k);
    } else if NoActive(View(s, y), k) {
      CancelledOwn(s, x, y, k);
    }
  }

  /** Where `y` sees no active run of the check, its cancellation has no run to stop. */
  lemma CancelledOwn(s: Sys, x: Tx, y: Tx, k: Id)
    requires x.kind == Cancelling(k) && WritesOk(s, x) && WritesOk(s, y) && CancelOk(s, x) && Apart(x, y)
    requires x.pc.Ready? && CountedOk(s, y, k) && NoActive(View(s, y), k)
    ensures CountedOk(AfterCommit(s, x), y, k)
  {
    SameRunsOf(View(s, y), View(AfterCommit(s, x), y), k);
  }

  lemma CommitKeepsFinalizer(s: Sys, x: Tx, y: Tx, k: Id)
    requires TablesOk(s) && TxOk(s, x) && TxOk(s, y) && KindOk(s, x, k) && KindOk(s, y, k) && Apart(x, y)
    requires x.pc.Ready? && !(k in x.counted && k in y.counted) && Finalizer(y)
    ensures KindOk(AfterCommit(s, x), y, k)
  {
    if k in y.counted { CommitKeepsCount(s, x, y, k); }
  }

  lemma CommitKeepsOther(s: Sys, x: Tx, y: Tx, k: Id)
    requires TablesOk(s) && TxOk(s, x) && TxOk(s, y) && KindOk(s, x, k) && KindOk(s, y, k) && Apart(x, y)
    requires x.pc.Ready? && !Finalizer(y)
    ensures KindOk(AfterCommit(s, x), y, k)
  {
    CommitKeepsWrites(s, x, y);
  }

  lemma CommitAgrees(s: Sys, x: Tx, k: Id)
    requires TablesOk(s) && TxOk(s, x) && KindOk(s, x, k) && x.pc.Ready? && k in s.checks && Agrees(s.checks[k].status, s.runs, k)
    ensures Agrees(AfterCommit(s, x).checks[k].status, AfterCommit(s, x).runs, k)
  {
    if !Touches(x, k) {
      SameRunsOf(s.runs, View(s, x), k);
    } else {
      var r :| r in x.runW && x.runW[r].checkId == k;
      assert r in View(s, x) && View(s, x)[r].checkId == k;
      match x.kind {
        case Completing => FinalizerAgrees(s, x, k);
        case Sweeping => FinalizerAgrees(s, x, k);
        case Claiming(_) => ClaimAgrees(s, x, k, r);
        case Cancelling(_) =>
        case Creating(_) =>
          assert !HasRun(s.runs, k) && !NoActive(View(s, x), k);
      }
    }
  }

  /** A claimed run was active and still is, so its check stays open. */
  lemma ClaimAgrees(s: Sys, x: Tx, k: Id, r: Id)
    requires WritesOk(s, x) && CheckWritesOk(s, x) && ClaimOk(s, x) && x.kind.Claiming?
    requires k in s.checks && Agrees(s.checks[k].status, s.runs, k) && r in x.runW && x.runW[r].checkId == k
    ensures Agrees(AfterCommit(s, x).checks[k].status, AfterCommit(s, x).runs, k)
  {
    assert r in s.runs && s.runs[r].checkId == k && r in View(s, x) && View(s, x)[r].checkId == k;
    assert !NoActive(s.runs, k) && !NoActive(View(s, x), k);
  }

  lemma FinalizerAgrees(s: Sys, x: Tx, k: Id)
    requires TablesOk(s) && TxOk(s, x) && KindOk(s, x, k) && x.pc.Ready? && k in s.checks && Agrees(s.checks[k].status, s.runs, k)
    requires Finalizer(x) && Touches(x, k)
    ensures Agrees(AfterCommit(s, x).checks[k].status, AfterCommit(s, x).runs, k)
  {
    var r :| r in x.runW && x.runW[r].checkId == k;
    assert k in x.counted && CountedOk(s, x, k);
    assert r in View(s, x) && HasRun(View(s, x), k);
    if !NoActive(View(s, x), k) {
      var q :| q in View(s, x) && View(s, x)[q].checkId == k && Active(View(s, x)[q].status);
      assert q in s.runs && s.runs[q] == View(s, x)[q];
      assert HasRun(s.runs, k) && !NoActive(s.runs, k);
    }
  }

  lemma CommitKeepsAgg(s: Sys, t: Id, k: Id)
    requires AggInv(s, k) && Enabled(s, Commit(t))
    ensures KindsOk(Do(s, Commit(t)), k) && ShowsAggregate(Do(s, Commit(t)), k)
  {
    var x := s.txs[t];
    var s' := Do(s, Commit(t));
    assert TxOk(s, x);
    forall u | u in s'.txs ensures KindOk(s', s'.txs[u], k) {
      var y := s.txs[u];
      assert TxOk(s, y) && KindOk(s, y, k) && Apart(x, y);
      if Finalizer(y) { CommitKeepsFinalizer(s, x, y, k); } else { CommitKeepsOther(s, x, y, k); }
      KindLocal(AfterCommit(s, x), s', y, k);
    }
    if k in s'.checks { CommitAgrees(s, x, k); }
  }

  lemma NewCheckKeepsAgg(s: Sys, a: Action, k: Id)
    requires AggInv(s, k) && Enabled(s, a) && a.AddCheck?
    ensures KindsOk(Do(s, a), k) && ShowsAggregate(Do(s, a), k)
  {
    var s' := Do(s, a);
    forall u | u in s'.txs ensures KindOk(s', s'.txs[u], k) {
      var y := s.txs[u];
      assert KindOk(s, y, k) && View(s', y) == View(s, y);
    }
  }

  lemma BeginKeepsAgg(s: Sys, a: Action, k: Id)
    requires AggInv(s, k) && Enabled(s, a) && !a.AddCheck? && !a.Move? && !a.Commit?
    ensures KindsOk(Do(s, a), k) && ShowsAggregate(Do(s, a), k) && CountsApart(Do(s, a), k)
  {
    BeginKeepsKinds(s, a, k);
  }

  lemma BeginKeepsKinds(s: Sys, a: Action, k: Id)
    requires KindsOk(s, k) && Enabled(s, a) && !a.AddCheck? && !a.Move? && !a.Commit?
    ensures KindsOk(Do(s, a), k)
  {
    var s' := Do(s, a);
    forall u | u in s'.txs ensures KindOk(s', s'.txs[u], k) {
      KindLocal(s, s', s'.txs[u], k);
      if u !in s.txs { NewKindOk(s, s'.txs[u], k); }
    }
  }

  lemma NewKindOk(s: Sys, x: Tx, k: Id)
    requires x == Fresh(x.kind, x.pc)
    requires match x.kind
             case Completing => x.pc.MarkRun?
             case Sweeping => x.pc.Expiring? && x.pc.hit == {}
             case Claiming(_) => x.pc.Selecting?
             case Cancelling(_) => x.pc.CancelMark?
             case Creating(_) => true
    ensures KindOk(s, x, k)
  {
  }

  lemma MoveKeepsAgg(s: Sys, t: Id, row: Id, k: Id)
    requires AggInv(s, k) && Enabled(s, Move(t, row)) && CountsAlone(s, Move(t, row), k)
    ensures ShowsAggregate(Do(s, Move(t, row)), k) && KindsOk(Do(s, Move(t, row)), k) && CountsApart(Do(s, Move(t, row)), k)
  {
    MoveKeepsKinds(s, t, row, k);
    MoveKeepsCountsApart(s, t, row, k);
  }

  lemma StepKeepsAgg(s: Sys, a: Action, k: Id)
    requires AggInv(s, k) && Enabled(s, a) && CountsAlone(s, a, k)
    ensures AggInv(Do(s, a), k)
  {
    StepKeepsInv(s, a);
    match a
    case AddCheck(_, _, _) => NewCheckKeepsAgg(s, a, k);
    case Move(t, row) => MoveKeepsAgg(s, t, row, k);
    case Commit(t) => CommitKeepsAgg(s, t, k);
    case _ => BeginKeepsAgg(s, a, k);
  }
}
