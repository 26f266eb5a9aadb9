/** What each transaction of the store does to the tables when it runs alone, and what
    every run of the protocol keeps. */
module Lifecycle {
  import opened Records

  // ---- the transactions as functions on the tables ----

  function InsertCheck(db: Db, id: Id, account: Id, batch: Option<Id>, target: string, now: nat): Db {
    if id in db.checks then db
    else db.(checks := db.checks[id := Check(account, batch, target, Pending, now, None)])
  }

  function AddRuns(runs: map<Id, Run>, c: Id, ids: seq<Id>, nodes: seq<Id>, now: nat): map<Id, Run>
    requires |ids| == |nodes|
  {
    if ids == [] then runs
    else
      var n := |ids| - 1;
      AddRuns(runs, c, ids[..n], nodes[..n], now)[ids[n] := Run(c, nodes[n], Queued, now, None, None)]
  }

  predicate Insertable(db: Db, c: Id, ids: seq<Id>) {
    && c in db.checks
    && (forall i :: 0 <= i < |ids| ==> ids[i] !in db.runs)
    && (forall i, j :: 0 <= i < j < |ids| ==> ids[i] != ids[j])
  }

  function InsertRuns(db: Db, c: Id, ids: seq<Id>, nodes: seq<Id>, now: nat): Db
    requires |ids| == |nodes|
  {
    if Insertable(db, c, ids) then db.(runs := AddRuns(db.runs, c, ids, nodes, now)) else db
  }

  const DEFAULT_CLAIM := 50
  const MAX_CLAIM := 100

  function ClaimLimit(limit: int): nat {
    if limit <= 0 || limit > MAX_CLAIM then DEFAULT_CLAIM else limit
  }

  /** The rows one claim may choose from. */
  function QueuedOf(db: Db, node: Id): set<Id> {
    set r | r in db.runs && db.runs[r].nodeId == node && db.runs[r].status.Queued? && db.runs[r].checkId in db.checks
  }

  /** What one claim may hand out: as many of the node's queued runs as the limit allows, none
      twice, oldest first. Rows created at the same instant may come in any order. */
  ghost predicate ClaimPick(db: Db, node: Id, limit: int, pick: seq<Id>) {
    && (forall i, j :: 0 <= i < j < |pick| ==> pick[i] != pick[j])
    && (forall i :: 0 <= i < |pick| ==> pick[i] in QueuedOf(db, node))
    && |pick| == (if |QueuedOf(db, node)| < ClaimLimit(limit) then |QueuedOf(db, node)| else ClaimLimit(limit))
    && (forall i, j :: 0 <= i < j < |pick| ==> db.runs[pick[i]].createdAt <= db.runs[pick[j]].createdAt)
    && (forall i, q :: 0 <= i < |pick| && q in QueuedOf(db, node) && q !in pick
                       ==> db.runs[pick[i]].createdAt <= db.runs[q].createdAt)
  }

  function Dispatch(runs: map<Id, Run>, pick: seq<Id>, now: nat): map<Id, Run> {
    map r | r in runs :: if r in pick then runs[r].(status := Dispatched, dispatchedAt := Some(now)) else runs[r]
  }

  predicate Claims(runs: map<Id, Run>, pick: seq<Id>, c: Id) {
    exists r :: r in pick && r in runs && runs[r].checkId == c
  }

  function Claim(db: Db, pick: seq<Id>, now: nat): Db {
    db.(runs := Dispatch(db.runs, pick, now),
        checks := map c | c in db.checks ::
          if db.checks[c].status.Pending? && Claims(db.runs, pick, c) then db.checks[c].(status := Running)
          else db.checks[c])
  }

  function Finalize(db: Db, c: Id, now: nat): Db {
    if NoActive(db.runs, c) && c in db.checks && !db.checks[c].status.Cancelled? then
      db.(checks := db.checks[c := db.checks[c].(status := Verdict(db.runs, c), completedAt := Some(now))])
    else db
  }

  predicate Owned(db: Db, run: Id, node: Id) {
    run in db.runs && db.runs[run].nodeId == node
  }

  function Outcome(success: bool): RunStatus {
    if success then Done else Errored
  }

  function Complete(db: Db, run: Id, node: Id, success: bool, now: nat): Db {
    if !Owned(db, run, node) then db
    else
      var over := db.runs[run].(status := Outcome(success), completedAt := Some(now));
      Finalize(Db(db.checks, db.runs[run := over], db.results + [ResultRow(run, success)]), over.checkId, now)
  }

  predicate Stale(r: Run, grace: nat, now: nat) {
    Active(r.status) && r.createdAt as int < now - grace
  }

  function Expire(runs: map<Id, Run>, grace: nat, now: nat): map<Id, Run> {
    map r | r in runs ::
      if Stale(runs[r], grace, now) then runs[r].(status := TimedOut, completedAt := Some(now)) else runs[r]
  }

  predicate Expires(runs: map<Id, Run>, grace: nat, now: nat, c: Id) {
    exists r :: r in runs && runs[r].checkId == c && Stale(runs[r], grace, now)
  }

  function Sweep(db: Db, grace: nat, now: nat): Db {
    var runs := Expire(db.runs, grace, now);
    db.(runs := runs,
        checks := map c | c in db.checks ::
          if Expires(db.runs, grace, now, c) && NoActive(runs, c) && !db.checks[c].status.Cancelled?
          then db.checks[c].(status := Verdict(runs, c), completedAt := Some(now))
          else db.checks[c])
  }

  predicate Cancellable(db: Db, account: Id, c: Id) {
    c in db.checks && db.checks[c].account == account && Open(db.checks[c].status)
  }

  function Cancel(db: Db, account: Id, c: Id, now: nat): Db {
    if !Cancellable(db, account, c) then db
    else
      Db(db.checks[c := db.checks[c].(status := Cancelled, completedAt := Some(now))],
         map r | r in db.runs ::
           if db.runs[r].checkId == c && Active(db.runs[r].status)
           then db.runs[r].(status := Errored, completedAt := Some(now)) else db.runs[r],
         db.results)
  }

  // ---- runs of the protocol ----

  datatype Op =
    | NewCheck(id: Id, account: Id, batch: Option<Id>, target: string)
    | FanOut(check: Id, ids: seq<Id>, nodes: seq<Id>)
    | Poll(node: Id, limit: int, pick: seq<Id>)
    | Report(run: Id, node: Id, success: bool)
    | SweepStale(grace: nat)
    | CancelOne(account: Id, check: Id)

  datatype Step = Step(op: Op, now: nat)

  /** The create handler fans a check out once, right after inserting it; a poll hands out
      what the claim query selects. Every other request may come at any moment. */
  ghost predicate Allowed(db: Db, op: Op) {
    match op
    case FanOut(c, ids, nodes) => |ids| == |nodes| && !HasRun(db.runs, c)
    case Poll(node, limit, pick) => ClaimPick(db, node, limit, pick)
    case _ => true
  }

  ghost function Apply(db: Db, s: Step): Db
    requires Allowed(db, s.op)
  {
    match s.op
    case NewCheck(id, account, batch, target) => InsertCheck(db, id, account, batch, target, s.now)
    case FanOut(c, ids, nodes) => InsertRuns(db, c, ids, nodes, s.now)
    case Poll(node, limit, pick) => Claim(db, pick, s.now)
    case Report(run, node, success) => Complete(db, run, node, success, s.now)
    case SweepStale(grace) => Sweep(db, grace, s.now)
    case CancelOne(account, c) => Cancel(db, account, c, s.now)
  }

  /** `states` is what the tables go through when `steps` run one after the other. Nothing
      orders the clock readings: the theorems hold whatever the requests' times are. */
  ghost predicate History(states: seq<Db>, steps: seq<Step>) {
    && |states| == |steps| + 1
    && states[0] == EMPTY
    && forall i {:trigger steps[i]} :: 0 <= i < |steps| ==> Allowed(states[i], steps[i].op) && states[i + 1] == Apply(states[i], steps[i])
  }

  // ---- the ledger ----

  function Count(results: seq<ResultRow>, run: Id): nat {
    if results == [] then 0
    else Count(results[..|results| - 1], run) + if results[|results| - 1].runId == run then 1 else 0
  }

  function Last(results: seq<ResultRow>, run: Id): Option<bool> {
    if results == [] then None
    else if results[|results| - 1].runId == run then Some(results[|results| - 1].success)
    else Last(results[..|results| - 1], run)
  }

  predicate LedgerAgrees(db: Db, r: Id)
    requires r in db.runs
  {
    match db.runs[r].status
    case Done => Last(db.results, r) == Some(true)
    case Errored =>
      || Last(db.results, r) == Some(false)
      || (Last(db.results, r) == None && db.runs[r].checkId in db.checks && db.checks[db.runs[r].checkId].status.Cancelled?)
    case _ => Last(db.results, r) == None
  }

  // ---- the invariant ----

  ghost predicate Inv(db: Db) {
    && (forall r :: r in db.runs ==> db.runs[r].checkId in db.checks && !db.runs[r].status.Executing?)
    && (forall i :: 0 <= i < |db.results| ==> db.results[i].runId in db.runs)
    && (forall c :: c in db.checks ==> Agrees(db.checks[c].status, db.runs, c))
    && (forall r :: r in db.runs ==> LedgerAgrees(db, r))
    && NotPendingOnceClaimed(db.checks, db.runs)
  }

  /** A check one of whose runs is out with a node is past pending. */
  predicate NotPendingOnceClaimed(checks: map<Id, Check>, runs: map<Id, Run>) {
    forall r :: r in runs && runs[r].status.Dispatched? && runs[r].checkId in checks ==> !checks[runs[r].checkId].status.Pending?
  }

  lemma {:induction false} LastNeedsRow(results: seq<ResultRow>, run: Id)
    ensures Last(results, run) == None <==> Count(results, run) == 0
    ensures Last(results, run) != None ==> exists i :: 0 <= i < |results| && results[i].runId == run
  {
    if results != [] {
      LastNeedsRow(results[..|results| - 1], run);
    }
  }

  ghost predicate Added(runs: map<Id, Run>, after: map<Id, Run>, c: Id, ids: seq<Id>, nodes: seq<Id>, now: nat)
    requires |ids| == |nodes|
  {
    && (forall r :: r in runs ==> r in after && after[r] == runs[r])
    && (forall i :: 0 <= i < |ids| ==> ids[i] in after && after[ids[i]] == Run(c, nodes[i], Queued, now, None, None))
    && (forall r :: r in after && r !in runs ==> r in ids)
  }

  lemma {:induction false} AddRunsAdds(runs: map<Id, Run>, c: Id, ids: seq<Id>, nodes: seq<Id>, now: nat)
    requires |ids| == |nodes|
    requires forall i :: 0 <= i < |ids| ==> ids[i] !in runs
    requires forall i, j :: 0 <= i < j < |ids| ==> ids[i] != ids[j]
    ensures Added(runs, AddRuns(runs, c, ids, nodes, now), c, ids, nodes, now)
  {
    if ids != [] {
      var n := |ids| - 1;
      var before := AddRuns(runs, c, ids[..n], nodes[..n], now);
      AddRunsAdds(runs, c, ids[..n], nodes[..n], now);
      assert Added(runs, before, c, ids[..n], nodes[..n], now);
      forall i | 0 <= i < n ensures ids[i] in before && before[ids[i]] == Run(c, nodes[i], Queued, now, None, None) {
        assert ids[..n][i] == ids[i];
      }
    }
  }

  lemma AgreesDependsOnRuns(status: CheckStatus, runs: map<Id, Run>, runs': map<Id, Run>, c: Id)
    requires forall r :: r in runs && runs[r].checkId == c ==> r in runs' && runs'[r].checkId == c && runs'[r].status == runs[r].status
    requires forall r :: r in runs' && runs'[r].checkId == c ==> r in runs && runs[r].checkId == c
    ensures HasRun(runs, c) == HasRun(runs', c)
    ensures NoActive(runs, c) == NoActive(runs', c)
    ensures Verdict(runs, c) == Verdict(runs', c)
    ensures Agrees(status, runs, c) == Agrees(status, runs', c)
  {
    assert NoFailure(runs, c) == NoFailure(runs', c);
    assert NoSuccess(runs, c) == NoSuccess(runs', c);
  }

  lemma InsertCheckKeepsInv(db: Db, id: Id, account: Id, batch: Option<Id>, target: string, now: nat)
    requires Inv(db)
    ensures Inv(InsertCheck(db, id, account, batch, target, now))
  {
    var db' := InsertCheck(db, id, account, batch, target, now);
    forall r | r in db'.runs ensures LedgerAgrees(db', r) {
      assert LedgerAgrees(db, r);
    }
  }

  lemma InsertRunsKeepsInv(db: Db, c: Id, ids: seq<Id>, nodes: seq<Id>, now: nat)
    requires Inv(db) && |ids| == |nodes| && !HasRun(db.runs, c)
    ensures Inv(InsertRuns(db, c, ids, nodes, now))
  {
    if Insertable(db, c, ids) {
      var db' := InsertRuns(db, c, ids, nodes, now);
      AddRunsAdds(db.runs, c, ids, nodes, now);
      forall k | k in db'.checks ensures Agrees(db'.checks[k].status, db'.runs, k) {
        assert Agrees(db.checks[k].status, db.runs, k);
        if k != c || ids == [] {
          AgreesDependsOnRuns(db.checks[k].status, db.runs, db'.runs, k);
        } else {
          assert ids[0] in db'.runs && db'.runs[ids[0]].checkId == k;
        }
      }
      forall r | r in db'.runs ensures LedgerAgrees(db', r) {
        if r in db.runs {
          assert LedgerAgrees(db, r);
        } else {
          LastNeedsRow(db.results, r);
        }
      }
    }
  }

  lemma ClaimKeepsInv(db: Db, node: Id, limit: int, pick: seq<Id>, now: nat)
    requires Inv(db) && ClaimPick(db, node, limit, pick)
    ensures Inv(Claim(db, pick, now))
  {
    var db' := Claim(db, pick, now);
    forall c | c in db'.checks ensures Agrees(db'.checks[c].status, db'.runs, c) {
      assert Agrees(db.checks[c].status, db.runs, c);
      assert forall r :: r in db.runs ==> Active(db.runs[r].status) == Active(db'.runs[r].status);
      if Claims(db.runs, pick, c) {
        var r :| r in pick && r in db.runs && db.runs[r].checkId == c;
        assert Active(db.runs[r].status) && Active(db'.runs[r].status);
      } else {
        AgreesDependsOnRuns(db.checks[c].status, db.runs, db'.runs, c);
      }
    }
    forall r | r in db'.runs ensures LedgerAgrees(db', r) {
      assert LedgerAgrees(db, r);
    }
  }

  lemma CompleteAgrees(db: Db, run: Id, node: Id, success: bool, now: nat, c: Id)
    requires Owned(db, run, node) && c in db.checks && Agrees(db.checks[c].status, db.runs, c)
    ensures var after := Complete(db, run, node, success, now); Agrees(after.checks[c].status, after.runs, c)
  {
    var after := Complete(db, run, node, success, now);
    if c != db.runs[run].checkId {
      AgreesDependsOnRuns(db.checks[c].status, db.runs, after.runs, c);
    } else {
      assert run in after.runs && after.runs[run].checkId == c;
      if !NoActive(after.runs, c) {
        var r :| r in after.runs && after.runs[r].checkId == c && Active(after.runs[r].status);
        assert r in db.runs && db.runs[r] == after.runs[r];
      }
    }
  }

  lemma CompleteKeepsInv(db: Db, run: Id, node: Id, success: bool, now: nat)
    requires Inv(db)
    ensures Inv(Complete(db, run, node, success, now))
  {
    if Owned(db, run, node) {
      var db' := Complete(db, run, node, success, now);
      assert db'.results[..|db.results|] == db.results;
      forall c | c in db'.checks ensures Agrees(db'.checks[c].status, db'.runs, c) {
        CompleteAgrees(db, run, node, success, now, c);
      }
      forall r | r in db'.runs ensures LedgerAgrees(db', r) {
        assert LedgerAgrees(db, r);
      }
    }
  }

  lemma SweepKeepsInv(db: Db, grace: nat, now: nat)
    requires Inv(db)
    ensures Inv(Sweep(db, grace, now))
  {
    var db' := Sweep(db, grace, now);
    forall c | c in db'.checks ensures Agrees(db'.checks[c].status, db'.runs, c) {
      assert Agrees(db.checks[c].status, db.runs, c);
      if Expires(db.runs, grace, now, c) {
        var r :| r in db.runs && db.runs[r].checkId == c && Stale(db.runs[r], grace, now);
        assert r in db'.runs && db'.runs[r].checkId == c;
        assert !NoActive(db.runs, c);
      } else {
        AgreesDependsOnRuns(db.checks[c].status, db.runs, db'.runs, c);
      }
    }
    forall r | r in db'.runs ensures LedgerAgrees(db', r) {
      assert LedgerAgrees(db, r);
    }
  }

  lemma CancelKeepsInv(db: Db, account: Id, c: Id, now: nat)
    requires Inv(db)
    ensures Inv(Cancel(db, account, c, now))
  {
    var db' := Cancel(db, account, c, now);
    forall k | k in db'.checks ensures Agrees(db'.checks[k].status, db'.runs, k) {
      assert Agrees(db.checks[k].status, db.runs, k);
      if k != c {
        AgreesDependsOnRuns(db.checks[k].status, db.runs, db'.runs, k);
      }
    }
    forall r | r in db'.runs ensures LedgerAgrees(db', r) {
      assert LedgerAgrees(db, r);
    }
  }

  /** One step keeps the invariant: check statuses are the aggregate of their runs, and the
      ledger agrees with run statuses, whatever the request is. */
  lemma StepKeepsInv(db: Db, s: Step)
    requires Inv(db) && Allowed(db, s.op)
    ensures Inv(Apply(db, s))
  {
    match s.op
    case NewCheck(id, account, batch, target) => InsertCheckKeepsInv(db, id, account, batch, target, s.now);
    case FanOut(c, ids, nodes) => InsertRunsKeepsInv(db, c, ids, nodes, s.now);
    case Poll(node, limit, pick) => ClaimKeepsInv(db, node, limit, pick, s.now);
    case Report(run, node, success) => CompleteKeepsInv(db, run, node, success, s.now);
    case SweepStale(grace) => SweepKeepsInv(db, grace, s.now);
    case CancelOne(account, c) => CancelKeepsInv(db, account, c, s.now);
  }

  /** In every reachable state a check's status is the derived aggregate of its runs. */
  lemma {:induction false} ReachableAgrees(states: seq<Db>, steps: seq<Step>, i: nat)
    requires History(states, steps) && i < |states|
    ensures Inv(states[i])
  {
    if i > 0 {
      ReachableAgrees(states, steps, i - 1);
      var s := steps[i - 1];
      StepKeepsInv(states[i - 1], s);
    }
  }

  // ---- what no step takes back ----

  /** Runs stay, with their node and check, and their ranks do not rise. */
  predicate RunsKept(before: map<Id, Run>, after: map<Id, Run>) {
    forall r :: r in before ==>
      && r in after
      && after[r].checkId == before[r].checkId
      && after[r].nodeId == before[r].nodeId
      && after[r].createdAt == before[r].createdAt
      && Rank(after[r].status) <= Rank(before[r].status)
  }

  /** Checks stay, with their account and target; cancelled is final and settled stays settled. */
  predicate ChecksKept(before: map<Id, Check>, after: map<Id, Check>) {
    forall c :: c in before ==>
      && c in after
      && after[c].account == before[c].account
      && after[c].target == before[c].target
      && (before[c].status.Cancelled? ==> after[c].status.Cancelled?)
      && (Settled(before[c].status) ==> Settled(after[c].status))
  }

  predicate NoRegress(before: Db, after: Db) {
    RunsKept(before.runs, after.runs) && ChecksKept(before.checks, after.checks)
  }

  lemma StepNeverRegresses(db: Db, s: Step)
    requires Inv(db) && Allowed(db, s.op)
    ensures NoRegress(db, Apply(db, s))
  {
    match s.op
    case NewCheck(_, _, _, _) =>
    case FanOut(c, ids, nodes) => InsertRunsNeverRegresses(db, c, ids, nodes, s.now);
    case Poll(node, limit, pick) => ClaimNeverRegresses(db, node, limit, pick, s.now);
    case Report(run, node, success) => CompleteNeverRegresses(db, run, node, success, s.now);
    case SweepStale(grace) => SweepNeverRegresses(db, grace, s.now);
    case CancelOne(account, c) => CancelNeverRegresses(db, account, c, s.now);
  }

  lemma InsertRunsNeverRegresses(db: Db, c: Id, ids: seq<Id>, nodes: seq<Id>, now: nat)
    requires |ids| == |nodes|
    ensures NoRegress(db, InsertRuns(db, c, ids, nodes, now))
  {
    if Insertable(db, c, ids) { AddRunsAdds(db.runs, c, ids, nodes, now); }
  }

  lemma SweepNeverRegresses(db: Db, grace: nat, now: nat)
    ensures NoRegress(db, Sweep(db, grace, now))
  {
  }

  lemma CancelNeverRegresses(db: Db, account: Id, c: Id, now: nat)
    ensures NoRegress(db, Cancel(db, account, c, now))
  {
  }

  lemma NoRegressTrans(a: Db, b: Db, c: Db)
    requires NoRegress(a, b) && NoRegress(b, c)
    ensures NoRegress(a, c)
  {
    forall r | r in a.runs ensures r in c.runs && Rank(c.runs[r].status) <= Rank(a.runs[r].status) {
      assert r in b.runs;
    }
  }

  lemma ClaimNeverRegresses(db: Db, node: Id, limit: int, pick: seq<Id>, now: nat)
    requires ClaimPick(db, node, limit, pick)
    ensures NoRegress(db, Claim(db, pick, now))
  {
  }

  lemma CompleteNeverRegresses(db: Db, run: Id, node: Id, success: bool, now: nat)
    ensures NoRegress(db, Complete(db, run, node, success, now))
  {
  }

  /** Between any two moments of a run nothing regresses: a settled check never becomes
      pending or running again, and never cancelled either. */
  lemma {:induction false} NothingRegresses(states: seq<Db>, steps: seq<Step>, i: nat, j: nat)
    requires History(states, steps) && i <= j < |states|
    ensures NoRegress(states[i], states[j])
    decreases j
  {
    if i < j {
      NothingRegresses(states, steps, i, j - 1);
      var s := steps[j - 1];
      ReachableAgrees(states, steps, j - 1);
      StepNeverRegresses(states[j - 1], s);
      NoRegressTrans(states[i], states[j - 1], states[j]);
    }
  }

  predicate AllOlder(runs: map<Id, Run>, c: Id, cutoff: int) {
    forall r :: r in runs && runs[r].checkId == c ==> runs[r].createdAt as int < cutoff
  }

  /** Right after a sweep at time `now`, whatever agents lost or never picked up: no run older
      than the grace period is active, and a check all of whose runs are that old is over. */
  lemma SweepSettles(states: seq<Db>, steps: seq<Step>, i: nat, grace: nat, now: nat)
    requires History(states, steps) && i < |steps|
    requires steps[i] == Step(SweepStale(grace), now)
    ensures var db := states[i + 1];
            && (forall r :: r in db.runs && db.runs[r].createdAt as int < now - grace ==> !Active(db.runs[r].status))
            && (forall c :: c in db.checks && HasRun(db.runs, c) && AllOlder(db.runs, c, now - grace)
                            ==> !Open(db.checks[c].status))
    ensures var before, after := states[i].runs, states[i + 1].runs;
            forall r :: r in before && !Stale(before[r], grace, now) ==> r in after && after[r] == before[r]
  {
    ReachableAgrees(states, steps, i + 1);
    var db := states[i + 1];
    assert db == Sweep(states[i], grace, now) by { var s := steps[i]; }
    forall c | c in db.checks && HasRun(db.runs, c) && AllOlder(db.runs, c, now - grace)
      ensures !Open(db.checks[c].status)
    {
      assert NoActive(db.runs, c);
      assert Agrees(db.checks[c].status, db.runs, c);
    }
  }

  // ---- timestamps ----

  predicate RunStamped(r: Run) {
    && (r.status.Queued? ==> r.dispatchedAt == None)
    && (r.status.Dispatched? ==> r.dispatchedAt.Some?)
    && (Active(r.status) <==> r.completedAt == None)
  }

  /** A run knows when it was dispatched once it was, a run or check when it ended once it has. */
  predicate Stamped(db: Db) {
    && (forall r :: r in db.runs ==> RunStamped(db.runs[r]))
    && (forall c :: c in db.checks ==> (Open(db.checks[c].status) <==> db.checks[c].completedAt == None))
  }

  lemma StepKeepsStamps(db: Db, s: Step)
    requires Stamped(db) && Allowed(db, s.op)
    ensures Stamped(Apply(db, s))
  {
    match s.op
    case FanOut(c, ids, nodes) =>
      if Insertable(db, c, ids) {
        AddRunsAdds(db.runs, c, ids, nodes, s.now);
        var after := AddRuns(db.runs, c, ids, nodes, s.now);
        forall r | r in after && r !in db.runs ensures RunStamped(after[r]) {
          var i :| 0 <= i < |ids| && ids[i] == r;
        }
      }
    case Poll(node, limit, pick) => ClaimKeepsStamps(db, node, limit, pick, s.now);
    case _ =>
  }

  lemma ClaimKeepsStamps(db: Db, node: Id, limit: int, pick: seq<Id>, now: nat)
    requires Stamped(db) && ClaimPick(db, node, limit, pick)
    ensures Stamped(Claim(db, pick, now))
  {
  }

  lemma {:induction false} ReachableStamped(states: seq<Db>, steps: seq<Step>, i: nat)
    requires History(states, steps) && i < |states|
    ensures Stamped(states[i])
  {
    if i > 0 {
      ReachableStamped(states, steps, i - 1);
      var s := steps[i - 1];
      StepKeepsStamps(states[i - 1], s);
    }
  }

  // ---- what a step leaves alone ----

  /** The rows of every check but `c` are the same. */
  predicate Elsewhere(before: Db, after: Db, c: Id) {
    && (forall k :: k in before.checks && k != c ==> k in after.checks && after.checks[k] == before.checks[k])
    && (forall r :: r in before.runs && before.runs[r].checkId != c ==> r in after.runs && after.runs[r] == before.runs[r])
  }

  /** A submission ends one run and settles at most that run's check. */
  lemma CompleteIsLocal(db: Db, run: Id, node: Id, success: bool, now: nat)
    requires Owned(db, run, node)
    ensures var after := Complete(db, run, node, success, now);
            && Elsewhere(db, after, db.runs[run].checkId)
            && (forall r :: r in db.runs && r != run ==> after.runs[r] == db.runs[r])
            && after.runs[run].status == Outcome(success) && after.results == db.results + [ResultRow(run, success)]
  {
  }

  /** A cancellation stops every run of the check that was under way and touches nothing else. */
  lemma CancelStopsCheck(db: Db, account: Id, c: Id, now: nat)
    requires Cancellable(db, account, c)
    ensures var after := Cancel(db, account, c, now);
            && after.checks[c].status.Cancelled? && NoActive(after.runs, c)
            && Elsewhere(db, after, c) && after.results == db.results
            && (forall r :: r in db.runs && !Active(db.runs[r].status) ==> after.runs[r] == db.runs[r])
  {
  }

  /** A report of one of the check's runs, or a cancellation that applies to it. */
  predicate Reaches(db: Db, op: Op, c: Id) {
    || (op.Report? && Owned(db, op.run, op.node) && db.runs[op.run].checkId == c)
    || (op.CancelOne? && op.check == c && Cancellable(db, op.account, c))
  }

  /** Every other request leaves the rows of a check alone once its runs are all over. */
  lemma OthersLeaveAlone(db: Db, s: Step, c: Id)
    requires Allowed(db, s.op) && c in db.checks && HasRun(db.runs, c) && NoActive(db.runs, c) && !Reaches(db, s.op, c)
    ensures c in Apply(db, s).checks && Apply(db, s).checks[c] == db.checks[c]
    ensures forall r :: r in db.runs && db.runs[r].checkId == c ==> r in Apply(db, s).runs && Apply(db, s).runs[r] == db.runs[r]
    ensures forall r :: r in Apply(db, s).runs && Apply(db, s).runs[r].checkId == c ==> r in db.runs && db.runs[r].checkId == c
  {
    match s.op
    case FanOut(k, ids, nodes) => FanOutLeavesAlone(db, k, ids, nodes, s.now, c);
    case Poll(node, limit, pick) => PollLeavesAlone(db, node, limit, pick, s.now, c);
    case SweepStale(grace) => SweepLeavesAlone(db, grace, s.now, c);
    case _ =>
  }

  lemma FanOutLeavesAlone(db: Db, k: Id, ids: seq<Id>, nodes: seq<Id>, now: nat, c: Id)
    requires |ids| == |nodes| && k != c
    ensures var after := InsertRuns(db, k, ids, nodes, now);
            && (forall r :: r in db.runs && db.runs[r].checkId == c ==> r in after.runs && after.runs[r] == db.runs[r])
            && (forall r :: r in after.runs && after.runs[r].checkId == c ==> r in db.runs && db.runs[r].checkId == c)
  {
    if Insertable(db, k, ids) {
      AddRunsAdds(db.runs, k, ids, nodes, now);
      var after := AddRuns(db.runs, k, ids, nodes, now);
      forall r | r in after && r !in db.runs ensures after[r].checkId == k {
        var i :| 0 <= i < |ids| && ids[i] == r;
      }
    }
  }

  lemma PollLeavesAlone(db: Db, node: Id, limit: int, pick: seq<Id>, now: nat, c: Id)
    requires ClaimPick(db, node, limit, pick) && c in db.checks && NoActive(db.runs, c)
    ensures Claim(db, pick, now).checks[c] == db.checks[c]
    ensures forall r :: r in db.runs && db.runs[r].checkId == c ==> Claim(db, pick, now).runs[r] == db.runs[r]
  {
    forall i | 0 <= i < |pick| ensures pick[i] in db.runs && db.runs[pick[i]].checkId != c {
      assert pick[i] in QueuedOf(db, node);
    }
  }

  lemma SweepLeavesAlone(db: Db, grace: nat, now: nat, c: Id)
    requires c in db.checks && NoActive(db.runs, c)
    ensures Sweep(db, grace, now).checks[c] == db.checks[c]
    ensures forall r :: r in db.runs && db.runs[r].checkId == c ==> Sweep(db, grace, now).runs[r] == db.runs[r]
  {
  }

  lemma ReportRepairs(db: Db, run: Id, node: Id, success: bool, now: nat, c: Id)
    requires c in db.checks && NoActive(db.runs, c) && Owned(db, run, node) && db.runs[run].checkId == c
    ensures var after := Complete(db, run, node, success, now); Agrees(after.checks[c].status, after.runs, c)
  {
    var after := Complete(db, run, node, success, now);
    assert run in after.runs && after.runs[run].checkId == c;
  }

  /** A check whose runs are all over but whose status does not show it is put right by exactly two
      requests: another report of one of its runs, and a cancellation while it is open. No sweep,
      poll or other request touches it. */
  lemma RepairedIffReached(db: Db, s: Step, c: Id)
    requires Allowed(db, s.op) && c in db.checks && HasRun(db.runs, c) && NoActive(db.runs, c)
    requires !Agrees(db.checks[c].status, db.runs, c)
    ensures c in Apply(db, s).checks
    ensures Agrees(Apply(db, s).checks[c].status, Apply(db, s).runs, c) <==> Reaches(db, s.op, c)
    ensures !Reaches(db, s.op, c) ==> Apply(db, s).checks[c] == db.checks[c]
  {
    if !Reaches(db, s.op, c) {
      OthersLeaveAlone(db, s, c);
      AgreesDependsOnRuns(db.checks[c].status, db.runs, Apply(db, s).runs, c);
    } else if s.op.Report? {
      ReportRepairs(db, s.op.run, s.op.node, s.op.success, s.now, c);
    }
  }

  // ---- the ledger counts accepted submissions ----

  /** How many submissions for `run` the store accepted: those sent by its own node once it
      existed. */
  ghost function Accepted(states: seq<Db>, steps: seq<Step>, run: Id): nat
    requires |states| == |steps| + 1
  {
    if steps == [] then 0
    else
      var n := |steps| - 1;
      var s := steps[n];
      Accepted(states[..n + 1], steps[..n], run)
      + if s.op.Report? && s.op.run == run && run in states[n].runs && states[n].runs[run].nodeId == s.op.node then 1 else 0
  }

  lemma {:induction false} LedgerCountsSubmissions(states: seq<Db>, steps: seq<Step>, run: Id)
    requires History(states, steps)
    ensures Count(states[|steps|].results, run) == Accepted(states, steps, run)
  {
    if steps != [] {
      var n := |steps| - 1;
      var s := steps[n];
      assert History(states[..n + 1], steps[..n]) by {
        forall i | 0 <= i < n ensures Allowed(states[i], steps[i].op) && states[i + 1] == Apply(states[i], steps[i]) {
          var t := steps[i];
        }
      }
      LedgerCountsSubmissions(states[..n + 1], steps[..n], run);
      assert states[n + 1] == Apply(states[n], s);
      if s.op.Report? && Owned(states[n], s.op.run, s.op.node) {
        assert states[n + 1].results[..|states[n].results|] == states[n].results;
      }
    }
  }
}
