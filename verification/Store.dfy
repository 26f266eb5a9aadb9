/** The store as the object the backend calls: each method is one transaction. A generated
    primary key and the database clock are parameters. */
module Store {
  import opened Records
  import opened Lifecycle
  import opened Effects

  datatype Job = Job(runId: Id, checkId: Id, target: string)

  function RunIds(jobs: seq<Job>): seq<Id> {
    seq(|jobs|, i requires 0 <= i < |jobs| => jobs[i].runId)
  }

  lemma {:induction false} OldestExists(left: set<Id>, runs: map<Id, Run>)
    requires left != {} && forall r :: r in left ==> r in runs
    ensures exists r :: r in left && forall q :: q in left ==> runs[r].createdAt <= runs[q].createdAt
    decreases left
  {
    var x :| x in left;
    if left != {x} {
      OldestExists(left - {x}, runs);
      var r :| r in left - {x} && forall q :: q in left - {x} ==> runs[r].createdAt <= runs[q].createdAt;
      var best := if runs[x].createdAt <= runs[r].createdAt then x else r;
      assert forall q :: q in left ==> q == x || q in left - {x};
      assert forall q :: q in left ==> runs[best].createdAt <= runs[q].createdAt;
    }
  }

  function JobOf(db: Db, id: Id): Job {
    if id in db.runs && db.runs[id].checkId in db.checks
    then Job(id, db.runs[id].checkId, db.checks[db.runs[id].checkId].target)
    else Job(id, 0, "")
  }

  function JobsOf(db: Db, ids: seq<Id>): seq<Job> {
    seq(|ids|, i requires 0 <= i < |ids| => JobOf(db, ids[i]))
  }

  lemma JobsByRow(db: Db, node: Id, limit: int, jobs: seq<Job>)
    requires ClaimPick(db, node, limit, RunIds(jobs)) && jobs == JobsOf(db, RunIds(jobs))
    ensures var mine := set r | r in db.runs && db.runs[r].nodeId == node && db.runs[r].status == Queued && db.runs[r].checkId in db.checks;
            var most := if 1 <= limit <= 100 then limit else 50;
            && |jobs| == (if |mine| < most then |mine| else most)
            && (forall i :: 0 <= i < |jobs| ==> jobs[i].runId in mine && jobs[i].checkId == db.runs[jobs[i].runId].checkId
                                                && jobs[i].target == db.checks[jobs[i].checkId].target)
            && (forall i, j :: 0 <= i < j < |jobs| ==> jobs[i].runId != jobs[j].runId
                                                       && db.runs[jobs[i].runId].createdAt <= db.runs[jobs[j].runId].createdAt)
            && (forall i, q :: 0 <= i < |jobs| && q in mine && q !in RunIds(jobs) ==> db.runs[jobs[i].runId].createdAt <= db.runs[q].createdAt)
  {
    var ids := RunIds(jobs);
    PickByRow(db, node, limit, ids);
    assert forall i :: 0 <= i < |jobs| ==> ids[i] == jobs[i].runId && jobs[i] == JobOf(db, ids[i]);
  }

  lemma ClaimsUnchanged(runs: map<Id, Run>, ids: seq<Id>, now: nat)
    ensures forall c :: Claims(Dispatch(runs, ids, now), ids, c) == Claims(runs, ids, c)
  {
    var after := Dispatch(runs, ids, now);
    assert forall r :: r in runs ==> r in after && after[r].checkId == runs[r].checkId;
  }

  /** The checks table once those in `done` have been finalized. */
  ghost function FinalizedChecks(db: Db, runs: map<Id, Run>, done: set<Id>, now: nat): map<Id, Check> {
    map c | c in db.checks ::
      if c in done && NoActive(runs, c) && !db.checks[c].status.Cancelled?
      then db.checks[c].(status := Verdict(runs, c), completedAt := Some(now))
      else db.checks[c]
  }

  lemma FinalizeOneMore(db: Db, runs: map<Id, Run>, done: set<Id>, c: Id, now: nat)
    requires c !in done
    ensures Finalize(Db(FinalizedChecks(db, runs, done, now), runs, db.results), c, now)
         == Db(FinalizedChecks(db, runs, done + {c}, now), runs, db.results)
  {
  }

  lemma FinalizedIsSweep(db: Db, hit: set<Id>, grace: nat, now: nat)
    requires forall c :: c in hit <==> Expires(db.runs, grace, now, c)
    ensures Db(FinalizedChecks(db, Expire(db.runs, grace, now), hit, now), Expire(db.runs, grace, now), db.results)
         == Sweep(db, grace, now)
  {
    assert FinalizedChecks(db, Expire(db.runs, grace, now), hit, now) == Sweep(db, grace, now).checks;
  }

  lemma AddedSoFar(runs: map<Id, Run>, c: Id, ids: seq<Id>, nodes: seq<Id>, i: nat, now: nat)
    requires i < |ids| == |nodes|
    requires forall j :: 0 <= j < i ==> ids[j] !in runs
    requires forall j, k :: 0 <= j < k < i ==> ids[j] != ids[k]
    ensures ids[i] in AddRuns(runs, c, ids[..i], nodes[..i], now) <==> ids[i] in runs || exists k :: 0 <= k < i && ids[k] == ids[i]
  {
    AddRunsAdds(runs, c, ids[..i], nodes[..i], now);
    assert forall j :: 0 <= j < i ==> ids[..i][j] == ids[j];
    if k :| 0 <= k < i && ids[k] == ids[i] {
      assert ids[..i][k] == ids[i];
    }
  }

  lemma StaleByRow(runs: map<Id, Run>, grace: nat, now: nat)
    ensures (set r | r in runs && Stale(runs[r], grace, now))
         == set r | r in runs && (runs[r].status == Queued || runs[r].status == Dispatched || runs[r].status == Executing)
                    && runs[r].createdAt as int < now - grace
  {
  }

  lemma SweepMayKeepInv(db: Db, grace: nat, now: nat)
    ensures Inv(db) ==> Inv(Sweep(db, grace, now))
  {
    if Inv(db) { SweepKeepsInv(db, grace, now); }
  }

  /** What empty counts say of a check's runs. */
  lemma CountsSay(runs: map<Id, Run>, c: Id, active: set<Id>, done: set<Id>, errored: set<Id>)
    requires active == set r | r in runs && runs[r].checkId == c && Active(runs[r].status)
    requires done == set r | r in runs && runs[r].checkId == c && runs[r].status.Done?
    requires errored == set r | r in runs && runs[r].checkId == c && (runs[r].status.Errored? || runs[r].status.TimedOut?)
    ensures active == {} <==> NoActive(runs, c)
    ensures errored == {} <==> NoFailure(runs, c)
    ensures done == {} <==> NoSuccess(runs, c)
  {
    forall r | r in runs && runs[r].checkId == c
      ensures r in active <==> Active(runs[r].status)
      ensures r in errored <==> runs[r].status.Errored? || runs[r].status.TimedOut?
      ensures r in done <==> runs[r].status.Done?
    {
    }
  }

  class Store {
    var checks: map<Id, Check>
    var runs: map<Id, Run>
    var results: seq<ResultRow>

    ghost function Tables(): Db
      reads this
    {
      Db(checks, runs, results)
    }

    ghost predicate Valid()
      reads this
    {
      Inv(Tables())
    }

    constructor ()
      ensures Tables() == EMPTY && Valid()
    {
      checks, runs, results := map[], map[], [];
    }

    method CreateCheck(id: Id, account: Id, batch: Option<Id>, target: string, now: nat) returns (ok: bool)
      modifies this
      ensures ok == (id !in old(checks))
      ensures checks == if ok then old(checks)[id := Check(account, batch, target, Pending, now, None)] else old(checks)
      ensures runs == old(runs) && results == old(results)
      ensures Tables() == InsertCheck(old(Tables()), id, account, batch, target, now)
      ensures old(Valid()) ==> Valid()
    {
      ok := id !in checks;
      if ok {
        checks := checks[id := Check(account, batch, target, Pending, now, None)];
      }
      if old(Valid()) {
        InsertCheckKeepsInv(old(Tables()), id, account, batch, target, now);
      }
    }

    /** One row per node, or none at all: a key clash or a missing check rolls back. */
    method CreateCheckRuns(c: Id, nodeIds: seq<Id>, ids: seq<Id>, now: nat) returns (ok: bool)
      requires |ids| == |nodeIds|
      modifies this
      ensures ok == (nodeIds == [] || (c in old(checks) && (forall i :: 0 <= i < |ids| ==> ids[i] !in old(runs))
                                       && (forall i, j :: 0 <= i < j < |ids| ==> ids[i] != ids[j])))
      ensures !ok ==> runs == old(runs)
      ensures ok ==> forall i :: 0 <= i < |ids| ==> ids[i] in runs && runs[ids[i]] == Run(c, nodeIds[i], Queued, now, None, None)
      ensures ok ==> forall r :: r in old(runs) ==> r in runs && runs[r] == old(runs)[r]
      ensures forall r :: r in runs && r !in old(runs) ==> r in ids
      ensures Tables() == InsertRuns(old(Tables()), c, ids, nodeIds, now)
      ensures old(Valid() && !HasRun(runs, c)) ==> Valid()
    {
      if old(Valid() && !HasRun(runs, c)) {
        InsertRunsKeepsInv(old(Tables()), c, ids, nodeIds, now);
      }
      FanOutByRow(old(Tables()), c, ids, nodeIds, now);
      if |nodeIds| == 0 {
        return true;
      }
      ok := InsertRunRows(c, nodeIds, ids, now);
    }

    method InsertRunRows(c: Id, nodeIds: seq<Id>, ids: seq<Id>, now: nat) returns (ok: bool)
      requires |ids| == |nodeIds| && nodeIds != []
      modifies this`runs
      ensures ok == Insertable(old(Tables()), c, ids)
      ensures runs == if ok then AddRuns(old(runs), c, ids, nodeIds, now) else old(runs)
    {
      var saved := runs;
      var i := 0;
      while i < |nodeIds|
        invariant 0 <= i <= |nodeIds|
        invariant i > 0 ==> c in checks
        invariant forall j :: 0 <= j < i ==> ids[j] !in saved
        invariant forall j, k :: 0 <= j < k < i ==> ids[j] != ids[k]
        invariant runs == AddRuns(saved, c, ids[..i], nodeIds[..i], now)
      {
        AddedSoFar(saved, c, ids, nodeIds, i, now);
        if c !in checks || ids[i] in runs {
          runs := saved;
          return false;
        }
        assert ids[..i + 1][..i] == ids[..i] && nodeIds[..i + 1][..i] == nodeIds[..i];
        runs := runs[ids[i] := Run(c, nodeIds[i], Queued, now, None, None)];
        i := i + 1;
      }
      assert ids[..i] == ids && nodeIds[..i] == nodeIds;
      return true;
    }

    /** The claim query: the node's queued runs, oldest first, up to the limit. */
    method SelectQueued(nodeId: Id, limit: int) returns (ids: seq<Id>)
      ensures ClaimPick(Tables(), nodeId, limit, ids)
    {
      var max := ClaimLimit(limit);
      ghost var queued := QueuedOf(Tables(), nodeId);
      var left := set r | r in runs && runs[r].nodeId == nodeId && runs[r].status.Queued? && runs[r].checkId in checks;
      ids := [];
      while |ids| < max && left != {}
        invariant left <= queued && |ids| <= max && |ids| + |left| == |queued|
        invariant forall q :: q in queued ==> q in left || q in ids
        invariant forall i :: 0 <= i < |ids| ==> ids[i] in queued && ids[i] !in left
        invariant forall i, j :: 0 <= i < j < |ids| ==> ids[i] != ids[j]
        invariant forall i, j :: 0 <= i < j < |ids| ==> runs[ids[i]].createdAt <= runs[ids[j]].createdAt
        invariant forall i, q :: 0 <= i < |ids| && q in left ==> runs[ids[i]].createdAt <= runs[q].createdAt
        decreases |left|
      {
        OldestExists(left, runs);
        var r :| r in left && forall q :: q in left ==> runs[r].createdAt <= runs[q].createdAt;
        ids := ids + [r];
        left := left - {r};
      }
    }

    method SelectJobs(nodeId: Id, limit: int) returns (jobs: seq<Job>, ids: seq<Id>)
      ensures ids == RunIds(jobs) && jobs == JobsOf(Tables(), ids)
      ensures ClaimPick(Tables(), nodeId, limit, ids)
    {
      ids := SelectQueued(nodeId, limit);
      jobs := [];
      for i := 0 to |ids|
        invariant |jobs| == i
        invariant forall k :: 0 <= k < i ==> jobs[k] == JobOf(Tables(), ids[k])
      {
        jobs := jobs + [Job(ids[i], runs[ids[i]].checkId, checks[runs[ids[i]].checkId].target)];
      }
    }

    /** Hands out the oldest queued runs of the node, at most `limit` if that is 1 to 100 and 50
        otherwise, each with its own check and target. */
    method ClaimQueuedRuns(nodeId: Id, limit: int, now: nat) returns (jobs: seq<Job>)
      modifies this
      ensures var mine := set r | r in old(runs) && old(runs)[r].nodeId == nodeId && old(runs)[r].status == Queued && old(runs)[r].checkId in old(checks);
              var most := if 1 <= limit <= 100 then limit else 50;
              && |jobs| == (if |mine| < most then |mine| else most)
              && (forall i :: 0 <= i < |jobs| ==> jobs[i].runId in mine && jobs[i].checkId == old(runs)[jobs[i].runId].checkId
                                                  && jobs[i].target == old(checks)[jobs[i].checkId].target)
              && (forall i, j :: 0 <= i < j < |jobs| ==> jobs[i].runId != jobs[j].runId
                                                         && old(runs)[jobs[i].runId].createdAt <= old(runs)[jobs[j].runId].createdAt)
              && (forall i, q :: 0 <= i < |jobs| && q in mine && q !in RunIds(jobs) ==> old(runs)[jobs[i].runId].createdAt <= old(runs)[q].createdAt)
      ensures results == old(results) && runs.Keys == old(runs).Keys && checks.Keys == old(checks).Keys
      ensures forall r :: r in old(runs) ==>
                runs[r] == if r in RunIds(jobs) then old(runs)[r].(status := Dispatched, dispatchedAt := Some(now)) else old(runs)[r]
      ensures forall c :: c in old(checks) ==>
                checks[c] == if old(checks)[c].status == Pending && exists r :: r in RunIds(jobs) && r in old(runs) && old(runs)[r].checkId == c
                             then old(checks)[c].(status := Running) else old(checks)[c]
      ensures ClaimPick(old(Tables()), nodeId, limit, RunIds(jobs))
      ensures jobs == JobsOf(old(Tables()), RunIds(jobs))
      ensures Tables() == Claim(old(Tables()), RunIds(jobs), now)
      ensures old(Valid()) ==> Valid()
    {
      var ids;
      jobs, ids := ClaimRows(nodeId, limit, now);
      JobsByRow(old(Tables()), nodeId, limit, jobs);
      ClaimByRow(old(Tables()), ids, now);
      if old(Valid()) {
        ClaimKeepsInv(old(Tables()), nodeId, limit, ids, now);
      }
    }

    method ClaimRows(nodeId: Id, limit: int, now: nat) returns (jobs: seq<Job>, ids: seq<Id>)
      modifies this
      ensures ids == RunIds(jobs) && jobs == JobsOf(old(Tables()), ids)
      ensures ClaimPick(old(Tables()), nodeId, limit, ids)
      ensures Tables() == Claim(old(Tables()), ids, now)
    {
      ghost var before := Tables();
      jobs, ids := SelectJobs(nodeId, limit);
      if |ids| > 0 {
        MarkDispatched(ids, now);
        StartClaimed(ids);
        ClaimsUnchanged(before.runs, ids, now);
      }
      assert Tables() == Claim(before, ids, now) by {
        assert runs == Claim(before, ids, now).runs;
        assert checks == Claim(before, ids, now).checks;
      }
    }

    method MarkDispatched(ids: seq<Id>, now: nat)
      modifies this`runs
      ensures runs == Dispatch(old(runs), ids, now)
    {
      runs := Dispatch(runs, ids, now);
    }

    method StartClaimed(ids: seq<Id>)
      modifies this`checks
      ensures checks == map c | c in old(checks) ::
                if old(checks)[c].status.Pending? && Claims(runs, ids, c) then old(checks)[c].(status := Running)
                else old(checks)[c]
    {
      checks := map c | c in checks ::
        if checks[c].status.Pending? && Claims(runs, ids, c) then checks[c].(status := Running) else checks[c];
    }

    /** Re-derives the status of one check by counting its runs. */
    method FinalizeCheckStatus(c: Id, now: nat)
      modifies this`checks
      ensures Tables() == Finalize(old(Tables()), c, now)
      ensures checks.Keys == old(checks).Keys && forall k :: k in old(checks) && k != c ==> checks[k] == old(checks)[k]
      ensures (exists r :: r in runs && runs[r].checkId == c && (runs[r].status == Queued || runs[r].status == Dispatched || runs[r].status == Executing))
              ==> checks == old(checks)
      ensures c in old(checks) && old(checks)[c].status == Cancelled ==> checks == old(checks)
      ensures && c in old(checks) && old(checks)[c].status != Cancelled && (exists r :: r in runs && runs[r].checkId == c)
              && (forall r :: r in runs && runs[r].checkId == c ==> runs[r].status == Done || runs[r].status == Errored || runs[r].status == TimedOut)
              ==> && (checks[c].status == Completed || checks[c].status == Failed || checks[c].status == Partial)
                  && (checks[c].status == Completed <==> forall r :: r in runs && runs[r].checkId == c ==> runs[r].status == Done)
                  && (checks[c].status == Failed <==> forall r :: r in runs && runs[r].checkId == c ==> runs[r].status != Done)
                  && checks[c] == old(checks)[c].(status := checks[c].status, completedAt := Some(now))
    {
      var active := set r | r in runs && runs[r].checkId == c && Active(runs[r].status);
      var done := set r | r in runs && runs[r].checkId == c && runs[r].status.Done?;
      var errored := set r | r in runs && runs[r].checkId == c && (runs[r].status.Errored? || runs[r].status.TimedOut?);
      if |active| > 0 {
        var r :| r in active;
        return;
      }
      assert active == {} && (|errored| == 0 <==> errored == {}) && (|done| == 0 <==> done == {});
      CountsSay(runs, c, active, done, errored);
      var status := if |errored| == 0 then Completed else if |done| == 0 then Failed else Partial;
      if c in checks && !checks[c].status.Cancelled? {
        checks := checks[c := checks[c].(status := status, completedAt := Some(now))];
      }
    }

    method CompleteCheckRun(run: Id, nodeId: Id, success: bool, now: nat) returns (found: bool)
      modifies this
      ensures found == (run in old(runs) && old(runs)[run].nodeId == nodeId)
      ensures !found ==> checks == old(checks) && runs == old(runs) && results == old(results)
      ensures found ==> runs == old(runs)[run := old(runs)[run].(status := if success then Done else Errored, completedAt := Some(now))]
      ensures found ==> results == old(results) + [ResultRow(run, success)]
      ensures found ==> checks.Keys == old(checks).Keys && forall k :: k in old(checks) && k != old(runs)[run].checkId ==> checks[k] == old(checks)[k]
      ensures Tables() == Complete(old(Tables()), run, nodeId, success, now)
      ensures old(Valid()) ==> Valid()
    {
      if old(Valid()) {
        CompleteKeepsInv(old(Tables()), run, nodeId, success, now);
      }
      ReportByRow(old(Tables()), run, nodeId, success, now);
      if run !in runs || runs[run].nodeId != nodeId {
        return false;
      }
      var c := runs[run].checkId;
      runs := runs[run := runs[run].(status := if success then Done else Errored, completedAt := Some(now))];
      results := results + [ResultRow(run, success)];
      FinalizeCheckStatus(c, now);
      return true;
    }

    /** The checks that lost a run are finalized one after the other, in any order. */
    method TimeoutStaleRuns(grace: nat, now: nat) returns (count: nat)
      modifies this
      ensures count == |set r | r in old(runs) && (old(runs)[r].status == Queued || old(runs)[r].status == Dispatched || old(runs)[r].status == Executing)
                                && old(runs)[r].createdAt as int < now - grace|
      ensures results == old(results) && runs.Keys == old(runs).Keys && checks.Keys == old(checks).Keys
      ensures forall r :: r in old(runs) ==>
                runs[r] ==
                if (old(runs)[r].status == Queued || old(runs)[r].status == Dispatched || old(runs)[r].status == Executing)
                   && old(runs)[r].createdAt as int < now - grace
                then old(runs)[r].(status := TimedOut, completedAt := Some(now)) else old(runs)[r]
      ensures Tables() == Sweep(old(Tables()), grace, now)
      ensures old(Valid()) ==> Valid()
    {
      ghost var before := Tables();
      count := ExpireAndFinalize(grace, now);
      StaleByRow(before.runs, grace, now);
      SweepByRow(before, grace, now);
      SweepMayKeepInv(before, grace, now);
    }

    method ExpireAndFinalize(grace: nat, now: nat) returns (count: nat)
      modifies this
      ensures count == |set r | r in old(runs) && Stale(old(runs)[r], grace, now)|
      ensures Tables() == Sweep(old(Tables()), grace, now)
    {
      ghost var before := Tables();
      var stale := set r | r in runs && Stale(runs[r], grace, now);
      count := |stale|;
      var left := set r | r in stale :: runs[r].checkId;
      ghost var hit := left;
      forall c ensures c in hit <==> Expires(before.runs, grace, now, c) {
        if Expires(before.runs, grace, now, c) {
          var r :| r in before.runs && before.runs[r].checkId == c && Stale(before.runs[r], grace, now);
          assert r in stale;
        }
      }
      runs := Expire(runs, grace, now);
      assert checks == FinalizedChecks(before, runs, {}, now);
      while left != {}
        invariant left <= hit
        invariant Tables() == Db(FinalizedChecks(before, Expire(before.runs, grace, now), hit - left, now), Expire(before.runs, grace, now), before.results)
        decreases left
      {
        var c :| c in left;
        FinalizeOneMore(before, runs, hit - left, c, now);
        assert hit - left + {c} == hit - (left - {c});
        FinalizeCheckStatus(c, now);
        left := left - {c};
      }
      assert hit - left == hit;
      FinalizedIsSweep(before, hit, grace, now);
    }

    method CancelCheck(account: Id, c: Id, now: nat) returns (found: bool)
      modifies this
      ensures found == (c in old(checks) && old(checks)[c].account == account && (old(checks)[c].status == Pending || old(checks)[c].status == Running))
      ensures !found ==> checks == old(checks) && runs == old(runs)
      ensures found ==> checks == old(checks)[c := old(checks)[c].(status := Cancelled, completedAt := Some(now))]
      ensures results == old(results) && runs.Keys == old(runs).Keys
      ensures found ==> forall r :: r in old(runs) ==>
                runs[r] ==
                if old(runs)[r].checkId == c && (old(runs)[r].status == Queued || old(runs)[r].status == Dispatched || old(runs)[r].status == Executing)
                then old(runs)[r].(status := Errored, completedAt := Some(now)) else old(runs)[r]
      ensures Tables() == Cancel(old(Tables()), account, c, now)
      ensures old(Valid()) ==> Valid()
    {
      if old(Valid()) {
        CancelKeepsInv(old(Tables()), account, c, now);
      }
      CancelByRow(old(Tables()), account, c, now);
      if c !in checks || checks[c].account != account || !(checks[c].status.Pending? || checks[c].status.Running?) {
        return false;
      }
      checks := checks[c := checks[c].(status := Cancelled, completedAt := Some(now))];
      runs := map r | r in runs ::
        if runs[r].checkId == c && Active(runs[r].status) then runs[r].(status := Errored, completedAt := Some(now))
        else runs[r];
      return true;
    }
  }
}
