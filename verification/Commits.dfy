/** What a transaction commits, however its statements were interleaved with others: exactly what
    the request that began it asked for, row by row. */
module Commits {
  import opened Records
  import opened Interleaving
  import Guarantees

  // ---- what a transaction has written so far, for each kind of request ----

  predicate Completes(s: Sys, x: Tx, run: Id, node: Id, success: bool) {
    && x.kind == Completing
    && if x.pc.MarkRun? then x.pc == MarkRun(run, node, success) && x.runW == map[] && x.checkW == map[]
       else && run in s.runs && s.runs[run].nodeId == node
            && x.runW == map[run := s.runs[run].(status := if success then Done else Errored)]
            && (forall c :: c in Ahead(x) ==> c == s.runs[run].checkId)
  }

  /** The checks a finalizer has written or may still write. */
  function Ahead(x: Tx): set<Id> {
    x.checkW.Keys +
    match x.pc
    case Expiring(_, hit) => hit
    case Counting(checks) => checks
    case Settling(c, _, checks) => checks + {c}
    case _ => {}
  }

  predicate Sweeps(s: Sys, x: Tx, cutoff: int, from: Sys) {
    && x.kind == Sweeping
    && (forall r :: r in from.runs && Active(from.runs[r].status) && from.runs[r].createdAt as int < cutoff ==>
          r in s.runs && (r in x.runW || !Active(s.runs[r].status) || (x.pc.Expiring? && r in x.pc.rows)))
    && (x.pc.Expiring? ==> forall r :: r in x.pc.rows ==> r in s.runs && s.runs[r].createdAt as int < cutoff)
    && (forall r :: r in x.runW ==>
          && r in s.runs && Active(s.runs[r].status) && s.runs[r].createdAt as int < cutoff
          && x.runW[r] == s.runs[r].(status := TimedOut))
    && (forall c :: c in Ahead(x) ==> exists r :: r in x.runW && x.runW[r].checkId == c)
  }

  predicate Claims(s: Sys, x: Tx, node: Id, limit: nat) {
    && x.kind == Claiming(node) && |x.runLocks| <= limit
    && (x.pc.Selecting? ==> x.pc.limit == limit)
    && (forall r :: r in x.runLocks ==> r in s.runs && s.runs[r].nodeId == node && s.runs[r].status == Queued)
    && (forall r :: r in x.runW ==> r in x.runLocks && x.runW[r] == s.runs[r].(status := Dispatched))
    && (x.pc.Starting? ==> forall c :: c in x.pc.checks ==> exists r :: r in x.runW && x.runW[r].checkId == c)
    && (forall c :: c in x.checkW ==>
          && x.checkW[c] == Running && c in s.checks && s.checks[c].status == Pending
          && exists r :: r in x.runW && x.runW[r].checkId == c)
  }

  predicate Cancels(s: Sys, x: Tx, account: Id, c: Id, from: Sys) {
    && x.kind == Cancelling(c)
    && (x.pc.CancelMark? || x.pc.CancelScan? || x.pc.CancelRuns? || x.pc.Ready?)
    && (forall r :: r in from.runs && from.runs[r].checkId == c && Active(from.runs[r].status) ==>
          r in s.runs && s.runs[r].checkId == c
          && (x.pc.CancelMark? || x.pc.CancelScan? || r in x.runW || !Active(s.runs[r].status) || (x.pc.CancelRuns? && r in x.pc.rows)))
    && if x.pc.CancelMark? then x.pc == CancelMark(account) && x.runW == map[] && x.checkW == map[]
       else && c in s.checks && s.checks[c].account == account && (s.checks[c].status == Pending || s.checks[c].status == Running)
            && x.checkW == map[c := Cancelled]
            && (x.pc.CancelRuns? ==> forall r :: r in x.pc.rows ==> r in s.runs && s.runs[r].checkId == c)
            && (forall r :: r in x.runW ==>
                  && r in s.runs && s.runs[r].checkId == c && Active(s.runs[r].status)
                  && x.runW[r] == s.runs[r].(status := Errored))
  }

  predicate Creates(s: Sys, x: Tx, c: Id, rows: seq<(Id, Id)>) {
    && x.kind == Creating(c) && x.checkW == map[]
    && var done := |rows| - if x.pc.Inserting? then |x.pc.left| else 0;
       && done >= 0 && (x.pc.Inserting? ==> x.pc.left == rows[done..])
       && (forall i :: 0 <= i < done ==> rows[i].0 in x.runW && x.runW[rows[i].0] == Run(c, rows[i].1, Queued, 0, None, None))
       && (forall i, j :: 0 <= i < j < done ==> rows[i].0 != rows[j].0)
       && (forall r :: r in x.runW ==> r !in s.runs && exists i :: 0 <= i < done && rows[i].0 == r)
  }

  predicate IsBegin(a: Action) {
    a.BeginComplete? || a.BeginSweep? || a.BeginClaim? || a.BeginCancel? || a.BeginCreate?
  }

  /** `x` is on its way to what the request `a`, made in state `from`, asks for. */
  predicate AsAsked(s: Sys, x: Tx, a: Action, from: Sys) {
    match a
    case BeginComplete(_, run, node, success) => Completes(s, x, run, node, success)
    case BeginSweep(_, cutoff) => Sweeps(s, x, cutoff, from)
    case BeginClaim(_, node, limit) => Claims(s, x, node, limit)
    case BeginCancel(_, account, c) => Cancels(s, x, account, c, from)
    case BeginCreate(_, c, rows) => Creates(s, x, c, rows)
    case _ => false
  }

  // ---- its own statements ----

  /** Counting and settling write no run and look at no further check. */
  lemma FinalizingMoves(s: Sys, t: Id, row: Id)
    requires t in s.txs && Work(s, t, row).Go? && (s.txs[t].pc.Counting? || s.txs[t].pc.Settling?)
    ensures var x, y := s.txs[t], Work(s, t, row).tx;
            && y.kind == x.kind && y.runW == x.runW && y.runLocks == x.runLocks
            && (y.pc.Counting? || y.pc.Settling? || y.pc.Ready?)
            && forall c :: c in Ahead(y) ==> c in Ahead(x)
  {
  }

  lemma CompleteMoves(s: Sys, t: Id, row: Id, run: Id, node: Id, success: bool)
    requires t in s.txs && TxOk(s, s.txs[t]) && Work(s, t, row).Go? && Completes(s, s.txs[t], run, node, success)
    ensures Completes(s, Work(s, t, row).tx, run, node, success)
  {
    if !s.txs[t].pc.MarkRun? {
      FinalizingMoves(s, t, row);
    } else {
      assert Ahead(Work(s, t, row).tx) == {s.runs[run].checkId};
    }
  }

  lemma SweepMoves(s: Sys, t: Id, row: Id, cutoff: int, from: Sys)
    requires t in s.txs && TxOk(s, s.txs[t]) && Work(s, t, row).Go? && Sweeps(s, s.txs[t], cutoff, from)
    ensures Sweeps(s, Work(s, t, row).tx, cutoff, from)
  {
    var x := s.txs[t];
    if !x.pc.Expiring? {
      FinalizingMoves(s, t, row);
    } else if x.pc.rows != {} && Active(s.runs[row].status) {
      ExpireMoves(s, x, row, cutoff, from);
    } else {
      assert forall c :: c in Ahead(Work(s, t, row).tx) ==> c in Ahead(x);
    }
  }

  lemma ExpireMoves(s: Sys, x: Tx, row: Id, cutoff: int, from: Sys)
    requires Sweeps(s, x, cutoff, from) && x.pc.Expiring? && row in x.pc.rows && Active(s.runs[row].status)
    ensures Sweeps(s, WriteRun(x, row, s.runs[row].(status := TimedOut)).(pc := Expiring(x.pc.rows - {row}, x.pc.hit + {s.runs[row].checkId})), cutoff, from)
  {
    var y := WriteRun(x, row, s.runs[row].(status := TimedOut)).(pc := Expiring(x.pc.rows - {row}, x.pc.hit + {s.runs[row].checkId}));
    forall c | c in Ahead(y) ensures exists r :: r in y.runW && y.runW[r].checkId == c {
      if c in Ahead(x) {
        var r :| r in x.runW && x.runW[r].checkId == c;
        assert r in y.runW && y.runW[r].checkId == c;
      } else {
        assert row in y.runW && y.runW[row].checkId == c;
      }
    }
  }

  lemma ClaimMoves(s: Sys, t: Id, row: Id, node: Id, limit: nat)
    requires t in s.txs && TxOk(s, s.txs[t]) && Work(s, t, row).Go? && Claims(s, s.txs[t], node, limit)
    ensures Claims(s, Work(s, t, row).tx, node, limit)
  {
    match s.txs[t].pc
    case Selecting(_, _) => SelectMoves(s, t, row, node, limit);
    case Dispatching => DispatchMoves(s, t, row, node, limit);
    case StartScan => ScanMoves(s, t, row, node, limit);
    case Starting(_) => StartMoves(s, t, row, node, limit);
  }

  lemma SelectMoves(s: Sys, t: Id, row: Id, node: Id, limit: nat)
    requires t in s.txs && TxOk(s, s.txs[t]) && Work(s, t, row).Go? && Claims(s, s.txs[t], node, limit) && s.txs[t].pc.Selecting?
    ensures Claims(s, Work(s, t, row).tx, node, limit)
  {
    assert s.txs[t].runW == map[] && s.txs[t].checkW == map[];
  }

  lemma DispatchMoves(s: Sys, t: Id, row: Id, node: Id, limit: nat)
    requires t in s.txs && TxOk(s, s.txs[t]) && Work(s, t, row).Go? && Claims(s, s.txs[t], node, limit) && s.txs[t].pc.Dispatching?
    ensures Claims(s, Work(s, t, row).tx, node, limit)
  {
    assert s.txs[t].runW == map[] && s.txs[t].checkW == map[];
  }

  lemma ScanMoves(s: Sys, t: Id, row: Id, node: Id, limit: nat)
    requires t in s.txs && Work(s, t, row).Go? && Claims(s, s.txs[t], node, limit) && s.txs[t].pc.StartScan?
    ensures Claims(s, Work(s, t, row).tx, node, limit)
  {
    var x, y := s.txs[t], Work(s, t, row).tx;
    forall c | c in y.pc.checks ensures exists r :: r in y.runW && y.runW[r].checkId == c {
      var r :| r in x.runW && x.runW[r].checkId == c;
    }
  }

  lemma StartMoves(s: Sys, t: Id, row: Id, node: Id, limit: nat)
    requires t in s.txs && Work(s, t, row).Go? && Claims(s, s.txs[t], node, limit) && s.txs[t].pc.Starting?
    ensures Claims(s, Work(s, t, row).tx, node, limit)
  {
    var x, y := s.txs[t], Work(s, t, row).tx;
    assert y.runW == x.runW && y.runLocks == x.runLocks;
    if row in x.pc.checks {
      var r :| r in x.runW && x.runW[r].checkId == row;
    }
  }

  lemma CancelMoves(s: Sys, t: Id, row: Id, account: Id, c: Id, from: Sys)
    requires t in s.txs && TxOk(s, s.txs[t]) && Work(s, t, row).Go? && Cancels(s, s.txs[t], account, c, from)
    ensures Cancels(s, Work(s, t, row).tx, account, c, from)
  {
  }

  lemma CreateMoves(s: Sys, t: Id, row: Id, c: Id, rows: seq<(Id, Id)>)
    requires t in s.txs && TxOk(s, s.txs[t]) && Work(s, t, row).Go? && Creates(s, s.txs[t], c, rows)
    ensures Creates(s, Work(s, t, row).tx, c, rows)
  {
    var x, y := s.txs[t], Work(s, t, row).tx;
    if x.pc.Inserting? && x.pc.left != [] {
      var done := |rows| - |x.pc.left|;
      assert rows[done] == x.pc.left[0] && rows[done + 1..] == x.pc.left[1..];
      forall r | r in y.runW ensures r !in s.runs && exists i :: 0 <= i < done + 1 && rows[i].0 == r {
        if r in x.runW {
          var i :| 0 <= i < done && rows[i].0 == r;
          assert 0 <= i < done + 1;
        } else {
          assert rows[done].0 == r;
        }
      }
    }
  }

  lemma MoveAsAsked(s: Sys, t: Id, row: Id, a: Action, from: Sys)
    requires t in s.txs && TxOk(s, s.txs[t]) && Work(s, t, row).Go? && AsAsked(s, s.txs[t], a, from)
    ensures AsAsked(s, Work(s, t, row).tx, a, from)
  {
    match a
    case BeginComplete(_, run, node, success) => CompleteMoves(s, t, row, run, node, success);
    case BeginSweep(_, cutoff) => SweepMoves(s, t, row, cutoff, from);
    case BeginClaim(_, node, limit) => ClaimMoves(s, t, row, node, limit);
    case BeginCancel(_, account, c) => CancelMoves(s, t, row, account, c, from);
    case BeginCreate(_, c, rows) => CreateMoves(s, t, row, c, rows);
  }

  // ---- what others do meanwhile ----

  /** The rows `x` holds are as they were, and no row is lost or reassigned. */
  predicate Later(s: Sys, s': Sys, x: Tx) {
    && (forall r :: r in x.runLocks ==> (r in s'.runs <==> r in s.runs))
    && (forall r :: r in x.runLocks && r in s.runs ==> s'.runs[r] == s.runs[r])
    && (forall c :: c in x.checkW && c in s.checks ==> c in s'.checks && s'.checks[c] == s.checks[c])
    && (forall r :: r in s.runs ==> r in s'.runs && s'.runs[r].createdAt == s.runs[r].createdAt && s'.runs[r].checkId == s.runs[r].checkId)
    && (forall r :: r in s.runs && !Active(s.runs[r].status) ==> !Active(s'.runs[r].status))
  }

  lemma LaterAsAsked(s: Sys, s': Sys, x: Tx, a: Action, from: Sys)
    requires Later(s, s', x) && AsAsked(s, x, a, from) && forall r :: r in x.runW ==> r in x.runLocks
    ensures AsAsked(s', x, a, from)
  {
    match a
    case BeginComplete(_, run, _, _) => if !x.pc.MarkRun? { assert run in x.runW; }
    case BeginCancel(_, _, c) => if !x.pc.CancelMark? { assert c in x.checkW; }
    case _ =>
  }

  lemma WritesAreLater(s: Sys, s': Sys, x: Tx, y: Tx)
    requires WritesOk(s, y) && Apart(x, y) && s'.runs == View(s, y) && s'.checks == Committed(s, y)
    ensures Later(s, s', x)
  {
    forall r | r in s.runs
      ensures s'.runs[r].createdAt == s.runs[r].createdAt && s'.runs[r].checkId == s.runs[r].checkId
      ensures !Active(s.runs[r].status) ==> !Active(s'.runs[r].status)
    {
      if r in y.runW { assert s'.runs[r] == y.runW[r]; }
    }
  }

  lemma CommitIsLater(s: Sys, u: Id, t: Id)
    requires Inv(s) && t in s.txs && u in s.txs && t != u && s.txs[u].pc.Ready?
    ensures Later(s, Do(s, Commit(u)), s.txs[t])
  {
    assert WritesOk(s, s.txs[u]) by { assert TxOk(s, s.txs[u]); }
    assert Apart(s.txs[t], s.txs[u]);
    WritesAreLater(s, Do(s, Commit(u)), s.txs[t], s.txs[u]);
  }

  lemma OwnMove(s: Sys, t: Id, row: Id, a: Action, from: Sys)
    requires Inv(s) && Enabled(s, Move(t, row)) && t in Do(s, Move(t, row)).txs && AsAsked(s, s.txs[t], a, from)
    ensures AsAsked(Do(s, Move(t, row)), Do(s, Move(t, row)).txs[t], a, from)
  {
    assert TxOk(s, s.txs[t]);
    MoveAsAsked(s, t, row, a, from);
    SameTables(s, Do(s, Move(t, row)), Work(s, t, row).tx, a, from);
  }

  lemma SameTables(s: Sys, s': Sys, x: Tx, a: Action, from: Sys)
    requires s'.checks == s.checks && s'.runs == s.runs
    ensures AsAsked(s', x, a, from) == AsAsked(s, x, a, from)
  {
  }

  /** A step of another transaction leaves `t` as it is. */
  lemma OthersLeave(s: Sys, act: Action, t: Id)
    requires Enabled(s, act) && t in s.txs && (act.AddCheck? || act.t != t)
    ensures t in Do(s, act).txs && Do(s, act).txs[t] == s.txs[t]
  {
  }

  /** Short of a commit no row changes. */
  lemma NoCommitIsLater(s: Sys, act: Action, x: Tx)
    requires Enabled(s, act) && !act.Commit?
    ensures Later(s, Do(s, act), x)
  {
    assert Do(s, act).runs == s.runs;
  }

  lemma StepAsAsked(s: Sys, act: Action, t: Id, a: Action, from: Sys)
    requires Inv(s) && Enabled(s, act) && t in s.txs && t in Do(s, act).txs && AsAsked(s, s.txs[t], a, from)
    ensures AsAsked(Do(s, act), Do(s, act).txs[t], a, from)
  {
    if act.Move? && act.t == t {
      OwnMove(s, t, act.row, a, from);
    } else {
      OthersLeave(s, act, t);
      if act.Commit? { CommitIsLater(s, act.t, t); } else { NoCommitIsLater(s, act, s.txs[t]); }
      LocksHeld(s, t);
      LaterAsAsked(s, Do(s, act), s.txs[t], a, from);
    }
  }

  lemma LocksHeld(s: Sys, t: Id)
    requires Inv(s) && t in s.txs
    ensures forall r :: r in s.txs[t].runW ==> r in s.txs[t].runLocks
  {
    assert TxOk(s, s.txs[t]);
  }

  /** Every open transaction was begun by a request and is on its way to what that asks for. */
  lemma {:induction false} OpenAsAsked(states: seq<Sys>, acts: seq<Action>, i: nat, t: Id) returns (b: nat)
    requires Execution(states, acts) && i < |states| && t in states[i].txs
    ensures b < i && IsBegin(acts[b]) && acts[b].t == t && AsAsked(states[i], states[i].txs[t], acts[b], states[b])
  {
    var a := acts[i - 1];
    if t in states[i - 1].txs {
      b := OpenAsAsked(states, acts, i - 1, t);
      Guarantees.EveryInterleaving(states, acts, i - 1);
      StepAsAsked(states[i - 1], a, t, acts[b], states[b]);
    } else {
      b := i - 1;
    }
  }

  // ---- commits ----

  /** A committed report changes one run, which is the reporting node's, to what was reported, and
      no check but that run's. */
  predicate ReportCommitted(before: Sys, after: Sys, run: Id, node: Id, success: bool) {
    && run in before.runs && before.runs[run].nodeId == node
    && after.runs == before.runs[run := before.runs[run].(status := if success then Done else Errored)]
    && after.checks.Keys == before.checks.Keys
    && forall c :: c in before.checks && c != before.runs[run].checkId ==> after.checks[c] == before.checks[c]
  }

  predicate Over(status: RunStatus) {
    status == Done || status == Errored || status == TimedOut
  }

  /** A committed sweep changes nothing but runs created before the cutoff that were still under way,
      to timed out, and checks of such runs; and every run that was under way and that old when the
      sweep began is over. */
  predicate SweepCommitted(before: Sys, after: Sys, cutoff: int, from: Sys) {
    && after.runs.Keys == before.runs.Keys && after.checks.Keys == before.checks.Keys
    && (forall r :: r in before.runs && after.runs[r] != before.runs[r] ==>
          && (before.runs[r].status == Queued || before.runs[r].status == Dispatched || before.runs[r].status == Executing)
          && before.runs[r].createdAt as int < cutoff && after.runs[r] == before.runs[r].(status := TimedOut))
    && (forall r :: r in from.runs && Active(from.runs[r].status) && from.runs[r].createdAt as int < cutoff ==> r in after.runs && Over(after.runs[r].status))
    && (forall c :: c in before.checks && after.checks[c] != before.checks[c] ==>
          exists r :: r in before.runs && before.runs[r].checkId == c && after.runs[r] != before.runs[r])
  }

  /** A committed claim hands out at most `limit` queued runs of the node and starts only pending
      checks of those. */
  predicate ClaimCommitted(before: Sys, after: Sys, node: Id, limit: nat, picked: set<Id>) {
    && |picked| <= limit && after.handouts == before.handouts + [Handout(node, picked)]
    && after.runs.Keys == before.runs.Keys && after.checks.Keys == before.checks.Keys
    && (forall r :: r in picked ==> r in before.runs && before.runs[r].nodeId == node && before.runs[r].status == Queued)
    && (forall r :: r in before.runs ==> after.runs[r] == if r in picked then before.runs[r].(status := Dispatched) else before.runs[r])
    && (forall c :: c in before.checks && after.checks[c] != before.checks[c] ==>
          && before.checks[c].status == Pending && after.checks[c] == before.checks[c].(status := Running)
          && exists r :: r in picked && before.runs[r].checkId == c)
  }

  /** A committed cancellation cancels an open check of the account and fails only runs of it that
      were under way; and every run of it that was under way when the cancellation began is over. */
  predicate CancelCommitted(before: Sys, after: Sys, account: Id, c: Id, from: Sys) {
    && c in before.checks && before.checks[c].account == account && (before.checks[c].status == Pending || before.checks[c].status == Running)
    && after.checks == before.checks[c := before.checks[c].(status := Cancelled)]
    && after.runs.Keys == before.runs.Keys
    && (forall r :: r in before.runs && after.runs[r] != before.runs[r] ==>
          && before.runs[r].checkId == c
          && (before.runs[r].status == Queued || before.runs[r].status == Dispatched || before.runs[r].status == Executing)
          && after.runs[r] == before.runs[r].(status := Errored))
    && (forall r :: r in from.runs && from.runs[r].checkId == c && Active(from.runs[r].status) ==> r in after.runs && Over(after.runs[r].status))
  }

  /** A committed fan-out adds a queued run of the check for every row, and nothing else. */
  predicate CreateCommitted(before: Sys, after: Sys, c: Id, rows: seq<(Id, Id)>) {
    && after.checks == before.checks
    && (forall i, j :: 0 <= i < j < |rows| ==> rows[i].0 != rows[j].0)
    && (forall i :: 0 <= i < |rows| ==> rows[i].0 !in before.runs && rows[i].0 in after.runs && after.runs[rows[i].0] == Run(c, rows[i].1, Queued, 0, None, None))
    && (forall r :: r in before.runs ==> r in after.runs && after.runs[r] == before.runs[r])
    && (forall r :: r in after.runs && r !in before.runs ==> exists i :: 0 <= i < |rows| && rows[i].0 == r)
  }

  predicate CommittedAsAsked(before: Sys, after: Sys, a: Action, from: Sys) {
    match a
    case BeginComplete(_, run, node, success) => ReportCommitted(before, after, run, node, success)
    case BeginSweep(_, cutoff) => SweepCommitted(before, after, cutoff, from)
    case BeginClaim(_, node, limit) => |after.handouts| > 0 && ClaimCommitted(before, after, node, limit, after.handouts[|after.handouts| - 1].runs)
    case BeginCancel(_, account, c) => CancelCommitted(before, after, account, c, from)
    case BeginCreate(_, c, rows) => CreateCommitted(before, after, c, rows)
    case _ => false
  }

  lemma ReportCommits(s: Sys, t: Id, run: Id, node: Id, success: bool)
    requires t in s.txs && s.txs[t].pc.Ready? && Completes(s, s.txs[t], run, node, success)
    ensures ReportCommitted(s, Do(s, Commit(t)), run, node, success)
  {
    var x := s.txs[t];
    assert forall c :: c in x.checkW ==> c in Ahead(x);
  }

  lemma SweepCommits(s: Sys, t: Id, cutoff: int, from: Sys)
    requires t in s.txs && s.txs[t].pc.Ready? && Sweeps(s, s.txs[t], cutoff, from)
    ensures SweepCommitted(s, Do(s, Commit(t)), cutoff, from)
  {
    var x, after := s.txs[t], Do(s, Commit(t));
    forall c | c in s.checks && after.checks[c] != s.checks[c]
      ensures exists r :: r in s.runs && s.runs[r].checkId == c && after.runs[r] != s.runs[r]
    {
      assert c in Ahead(x);
      var r :| r in x.runW && x.runW[r].checkId == c;
      assert after.runs[r].status == TimedOut;
    }
  }

  lemma ClaimCommits(s: Sys, t: Id, node: Id, limit: nat)
    requires t in s.txs && s.txs[t].pc.Ready? && Claims(s, s.txs[t], node, limit) && s.txs[t].runLocks == s.txs[t].runW.Keys
    ensures ClaimCommitted(s, Do(s, Commit(t)), node, limit, s.txs[t].runLocks)
  {
  }

  lemma CancelCommits(s: Sys, t: Id, account: Id, c: Id, from: Sys)
    requires t in s.txs && s.txs[t].pc.Ready? && Cancels(s, s.txs[t], account, c, from)
    ensures CancelCommitted(s, Do(s, Commit(t)), account, c, from)
  {
  }

  lemma CreateCommits(s: Sys, t: Id, c: Id, rows: seq<(Id, Id)>)
    requires t in s.txs && s.txs[t].pc.Ready? && Creates(s, s.txs[t], c, rows)
    ensures CreateCommitted(s, Do(s, Commit(t)), c, rows)
  {
  }

  lemma CommitAsAsked(s: Sys, t: Id, a: Action, from: Sys)
    requires t in s.txs && s.txs[t].pc.Ready? && PcOk(s, s.txs[t]) && AsAsked(s, s.txs[t], a, from)
    ensures CommittedAsAsked(s, Do(s, Commit(t)), a, from)
  {
    match a
    case BeginComplete(_, run, node, success) => ReportCommits(s, t, run, node, success);
    case BeginSweep(_, cutoff) => SweepCommits(s, t, cutoff, from);
    case BeginClaim(_, node, limit) => ClaimCommits(s, t, node, limit);
    case BeginCancel(_, account, c) => CancelCommits(s, t, account, c, from);
    case BeginCreate(_, c, rows) => CreateCommits(s, t, c, rows);
  }

  /** However statements interleave, every commit changes the tables by what the request that began
      it asked for and by nothing else. */
  lemma EveryCommitAsAsked(states: seq<Sys>, acts: seq<Action>, i: nat) returns (b: nat)
    requires Execution(states, acts) && i < |acts| && acts[i].Commit?
    ensures b < i && IsBegin(acts[b]) && acts[b].t == acts[i].t
    ensures CommittedAsAsked(states[i], states[i + 1], acts[b], states[b])
  {
    var a, s := acts[i], states[i];
    b := OpenAsAsked(states, acts, i, a.t);
    Guarantees.EveryInterleaving(states, acts, i);
    assert PcOk(s, s.txs[a.t]) by { assert TxOk(s, s.txs[a.t]); }
    CommitAsAsked(s, a.t, acts[b], states[b]);
  }

  /** Nothing but a commit or a new check changes the tables. */
  lemma OnlyCommitsChange(states: seq<Sys>, acts: seq<Action>, i: nat)
    requires Execution(states, acts) && i < |acts| && !acts[i].Commit?
    ensures states[i + 1].runs == states[i].runs && states[i + 1].handouts == states[i].handouts
    ensures var a := acts[i];
            if a.AddCheck? then a.id !in states[i].checks && states[i + 1].checks == states[i].checks[a.id := Check(a.account, None, a.target, Pending, 0, None)]
            else states[i + 1].checks == states[i].checks
  {
    var a := acts[i];
  }
}
