/** The transactions in terms of rows, statuses and numbers alone: each statement here is read off
    the tables before and after, not off the functions that compute them. */
module Effects {
  import opened Records
  import opened Lifecycle

  // ---- the status of a check ----

  /** In every reachable state a check that is not cancelled shows what its runs' statuses amount
      to. */
  lemma ReachableByStatus(states: seq<Db>, steps: seq<Step>, i: nat, c: Id)
    requires History(states, steps) && i < |states|
    requires c in states[i].checks && states[i].checks[c].status != Cancelled
    ensures var runs, status := states[i].runs, states[i].checks[c].status;
            && ((forall r :: r in runs ==> runs[r].checkId != c) ==> status == Pending)
            && ((exists r :: r in runs && runs[r].checkId == c && (runs[r].status == Queued || runs[r].status == Dispatched))
                ==> status == Pending || status == Running)
            && ((exists r :: r in runs && runs[r].checkId == c)
                && (forall r :: r in runs && runs[r].checkId == c ==> runs[r].status == Done || runs[r].status == Errored || runs[r].status == TimedOut)
                ==> && (status == Completed || status == Failed || status == Partial)
                    && (status == Completed <==> forall r :: r in runs && runs[r].checkId == c ==> runs[r].status == Done)
                    && (status == Failed <==> forall r :: r in runs && runs[r].checkId == c ==> runs[r].status != Done)
                    && (status == Partial <==> (exists r :: r in runs && runs[r].checkId == c && runs[r].status == Done)
                                               && (exists r :: r in runs && runs[r].checkId == c && runs[r].status != Done)))
    ensures forall r :: r in states[i].runs ==> states[i].runs[r].status != Executing
  {
    ReachableAgrees(states, steps, i);
    AgreesIsShows(states[i].checks[c].status, states[i].runs, c);
  }

  lemma FinalizeByStatus(db: Db, c: Id, now: nat)
    requires exists r :: r in db.runs && db.runs[r].checkId == c
    ensures var runs, after := db.runs, Finalize(db, c, now);
            && after.runs == db.runs && after.results == db.results && after.checks.Keys == db.checks.Keys
            && (forall k :: k in db.checks && k != c ==> after.checks[k] == db.checks[k])
            && ((exists r :: r in runs && runs[r].checkId == c && (runs[r].status == Queued || runs[r].status == Dispatched || runs[r].status == Executing))
                ==> after == db)
            && (c in db.checks && db.checks[c].status == Cancelled ==> after == db)
            && (c in db.checks && db.checks[c].status != Cancelled
                && (forall r :: r in runs && runs[r].checkId == c ==> runs[r].status == Done || runs[r].status == Errored || runs[r].status == TimedOut)
                ==> && after.checks[c] == db.checks[c].(status := after.checks[c].status, completedAt := Some(now))
                    && ShowsOver(after.checks[c].status, runs, c))
  {
    if NoActive(db.runs, c) { VerdictShows(db.runs, c); }
  }

  // ---- reports ----

  /** A report of a run the node has been assigned is recorded and ends the run; any other changes
      nothing. */
  lemma ReportByRow(db: Db, run: Id, node: Id, success: bool, now: nat)
    ensures var after := Complete(db, run, node, success, now);
            if run in db.runs && db.runs[run].nodeId == node then
              && after.runs == db.runs[run := db.runs[run].(status := if success then Done else Errored, completedAt := Some(now))]
              && after.results == db.results + [ResultRow(run, success)]
              && after.checks.Keys == db.checks.Keys
              && (forall k :: k in db.checks && k != db.runs[run].checkId ==> after.checks[k] == db.checks[k])
            else after == db
  {
  }

  /** And the check of the run shows what its runs then amount to, unless it was cancelled. */
  lemma ReportByStatus(db: Db, run: Id, node: Id, success: bool, now: nat)
    requires run in db.runs && db.runs[run].nodeId == node && db.runs[run].checkId in db.checks
    ensures var c, after := db.runs[run].checkId, Complete(db, run, node, success, now);
            && ((exists r :: r in after.runs && after.runs[r].checkId == c
                             && (after.runs[r].status == Queued || after.runs[r].status == Dispatched || after.runs[r].status == Executing))
                ==> after.checks[c] == db.checks[c])
            && (db.checks[c].status == Cancelled ==> after.checks[c] == db.checks[c])
            && (db.checks[c].status != Cancelled
                && (forall r :: r in after.runs && after.runs[r].checkId == c
                      ==> after.runs[r].status == Done || after.runs[r].status == Errored || after.runs[r].status == TimedOut)
                ==> ShowsOver(after.checks[c].status, after.runs, c))
  {
    var c, after := db.runs[run].checkId, Complete(db, run, node, success, now);
    assert run in after.runs && after.runs[run].checkId == c;
    if NoActive(after.runs, c) { VerdictShows(after.runs, c); }
  }

  // ---- sweeps ----

  /** A sweep times out exactly the runs that are queued, dispatched or executing and were created
      before now - grace, and touches no other run. */
  lemma SweepByRow(db: Db, grace: nat, now: nat)
    ensures var after := Sweep(db, grace, now);
            && after.runs.Keys == db.runs.Keys && after.checks.Keys == db.checks.Keys && after.results == db.results
            && (forall r :: r in db.runs ==>
                  after.runs[r] ==
                  if (db.runs[r].status == Queued || db.runs[r].status == Dispatched || db.runs[r].status == Executing)
                     && db.runs[r].createdAt as int < now - grace
                  then db.runs[r].(status := TimedOut, completedAt := Some(now)) else db.runs[r])
  {
  }

  /** It settles exactly the checks that lost a run and have none left under way. */
  lemma SweepByCheck(db: Db, grace: nat, now: nat, c: Id)
    requires c in db.checks
    ensures var after := Sweep(db, grace, now);
            if && db.checks[c].status != Cancelled
               && (exists r :: r in db.runs && db.runs[r].checkId == c && after.runs[r] != db.runs[r])
               && (forall r :: r in after.runs && after.runs[r].checkId == c
                     ==> after.runs[r].status == Done || after.runs[r].status == Errored || after.runs[r].status == TimedOut)
            then && after.checks[c] == db.checks[c].(status := after.checks[c].status, completedAt := Some(now))
                 && ShowsOver(after.checks[c].status, after.runs, c)
            else after.checks[c] == db.checks[c]
  {
    var after := Sweep(db, grace, now);
    if Expires(db.runs, grace, now, c) {
      var h :| h in db.runs && db.runs[h].checkId == c && Stale(db.runs[h], grace, now);
      assert after.runs[h].status == TimedOut && after.runs[h].checkId == c && after.runs[h] != db.runs[h];
      if NoActive(after.runs, c) {
        VerdictShows(after.runs, c);
      } else {
        var a :| a in after.runs && after.runs[a].checkId == c && Active(after.runs[a].status);
      }
    } else {
      forall r | r in db.runs && db.runs[r].checkId == c ensures after.runs[r] == db.runs[r] {
        assert !Stale(db.runs[r], grace, now);
      }
    }
  }

  // ---- claims ----

  /** A claim changes exactly the picked runs, to dispatched, and starts exactly the pending checks
      among theirs. */
  lemma ClaimByRow(db: Db, pick: seq<Id>, now: nat)
    ensures var after := Claim(db, pick, now);
            && after.runs.Keys == db.runs.Keys && after.checks.Keys == db.checks.Keys && after.results == db.results
            && (forall r :: r in db.runs ==>
                  after.runs[r] == if r in pick then db.runs[r].(status := Dispatched, dispatchedAt := Some(now)) else db.runs[r])
            && (forall c :: c in db.checks ==>
                  after.checks[c] == if db.checks[c].status == Pending && exists r :: r in pick && r in db.runs && db.runs[r].checkId == c
                                     then db.checks[c].(status := Running) else db.checks[c])
  {
  }

  /** The rows a claim may hand out. */
  lemma PickByRow(db: Db, node: Id, limit: int, pick: seq<Id>)
    requires ClaimPick(db, node, limit, pick)
    ensures var mine := set r | r in db.runs && db.runs[r].nodeId == node && db.runs[r].status == Queued && db.runs[r].checkId in db.checks;
            var most := if 1 <= limit <= 100 then limit else 50;
            && |pick| == (if |mine| < most then |mine| else most)
            && (forall i :: 0 <= i < |pick| ==> pick[i] in mine)
            && (forall i, j :: 0 <= i < j < |pick| ==> pick[i] != pick[j] && db.runs[pick[i]].createdAt <= db.runs[pick[j]].createdAt)
            && (forall i, q :: 0 <= i < |pick| && q in mine && q !in pick ==> db.runs[pick[i]].createdAt <= db.runs[q].createdAt)
  {
    assert QueuedOf(db, node) == set r | r in db.runs && db.runs[r].nodeId == node && db.runs[r].status == Queued && db.runs[r].checkId in db.checks;
  }

  // ---- cancellations and inserts ----

  /** A cancellation goes through exactly for the account's own pending or running check; it then
      cancels that check, ends its runs that are under way as failed, and changes nothing else. */
  lemma CancelByRow(db: Db, account: Id, c: Id, now: nat)
    ensures var after := Cancel(db, account, c, now);
            if c in db.checks && db.checks[c].account == account && (db.checks[c].status == Pending || db.checks[c].status == Running) then
              && after.checks == db.checks[c := db.checks[c].(status := Cancelled, completedAt := Some(now))]
              && after.runs.Keys == db.runs.Keys && after.results == db.results
              && (forall r :: r in db.runs ==>
                    after.runs[r] ==
                    if db.runs[r].checkId == c && (db.runs[r].status == Queued || db.runs[r].status == Dispatched || db.runs[r].status == Executing)
                    then db.runs[r].(status := Errored, completedAt := Some(now)) else db.runs[r])
            else after == db
  {
  }

  /** Runs are inserted all or not at all. */
  lemma FanOutByRow(db: Db, c: Id, ids: seq<Id>, nodes: seq<Id>, now: nat)
    requires |ids| == |nodes|
    ensures var after := InsertRuns(db, c, ids, nodes, now);
            && after.checks == db.checks && after.results == db.results
            && if c in db.checks && (forall i :: 0 <= i < |ids| ==> ids[i] !in db.runs) && (forall i, j :: 0 <= i < j < |ids| ==> ids[i] != ids[j]) then
                 && (forall i :: 0 <= i < |ids| ==> ids[i] in after.runs && after.runs[ids[i]] == Run(c, nodes[i], Queued, now, None, None))
                 && (forall r :: r in db.runs ==> r in after.runs && after.runs[r] == db.runs[r])
                 && (forall r :: r in after.runs && r !in db.runs ==> r in ids)
               else after.runs == db.runs
  {
    if Insertable(db, c, ids) { AddRunsAdds(db.runs, c, ids, nodes, now); }
  }
}
