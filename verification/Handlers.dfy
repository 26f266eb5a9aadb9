/** The two handlers that loop over the store: a node's results batch, and the fan-out of a
    create request. */
module Handlers {
  import opened Records
  import opened Lifecycle
  import opened Store

  // ---- results batches ----

  type Batch = seq<ResultRow>

  predicate AllOwned(db: Db, node: Id, batch: Batch) {
    forall i :: 0 <= i < |batch| ==> Owned(db, batch[i].runId, node)
  }

  /** `k` submissions go in before the first one the node does not own. */
  predicate OwnedPrefix(db: Db, node: Id, batch: Batch, k: nat) {
    && k <= |batch|
    && AllOwned(db, node, batch[..k])
    && (k < |batch| ==> !Owned(db, batch[k].runId, node))
  }

  function ApplyBatch(db: Db, node: Id, batch: Batch, clock: nat -> nat): Db {
    if batch == [] then db
    else
      var n := |batch| - 1;
      Complete(ApplyBatch(db, node, batch[..n], clock), batch[n].runId, node, batch[n].success, clock(n))
  }

  datatype Reply = NoContent | BadRequest | NotFound(run: Id)

  method Results(st: Store, node: Id, batch: Batch, clock: nat -> nat) returns (reply: Reply, ghost k: nat)
    modifies st
    ensures k <= |batch| && forall i :: 0 <= i < k ==> batch[i].runId in old(st.runs) && old(st.runs)[batch[i].runId].nodeId == node
    ensures k < |batch| ==> batch[k].runId !in old(st.runs) || old(st.runs)[batch[k].runId].nodeId != node
    ensures OwnedPrefix(old(st.Tables()), node, batch, k)
    ensures st.Tables() == ApplyBatch(old(st.Tables()), node, batch[..k], clock)
    ensures reply == if batch == [] then BadRequest else if k == |batch| then NoContent else NotFound(batch[k].runId)
    ensures old(st.Valid()) ==> st.Valid()
  {
    k := 0;
    if |batch| == 0 {
      return BadRequest, 0;
    }
    var i := 0;
    while i < |batch|
      invariant 0 <= i <= |batch|
      invariant AllOwned(old(st.Tables()), node, batch[..i])
      invariant st.Tables() == ApplyBatch(old(st.Tables()), node, batch[..i], clock)
      invariant old(st.Valid()) ==> st.Valid()
    {
      var found := Submit(st, old(st.Tables()), node, batch, i, clock);
      if !found {
        return NotFound(batch[i].runId), i;
      }
      i := i + 1;
    }
    assert batch[..i] == batch;
    return NoContent, i;
  }

  /** The same effect, submission by submission: the log grows by the batch, a run takes the result
      of the last submission for it, runs without one keep their status, and every check that is
      not cancelled shows what its runs amount to. */
  lemma BatchByRow(db: Db, node: Id, batch: Batch, clock: nat -> nat)
    requires Inv(db) && forall i :: 0 <= i < |batch| ==> batch[i].runId in db.runs && db.runs[batch[i].runId].nodeId == node
    ensures var after := ApplyBatch(db, node, batch, clock);
            && after.results == db.results + batch
            && after.runs.Keys == db.runs.Keys && after.checks.Keys == db.checks.Keys
            && (forall i :: 0 <= i < |batch| && (forall j :: i < j < |batch| ==> batch[j].runId != batch[i].runId)
                  ==> after.runs[batch[i].runId].status == if batch[i].success then Done else Errored)
            && (forall r :: r in db.runs && (forall i :: 0 <= i < |batch| ==> batch[i].runId != r) ==> after.runs[r].status == db.runs[r].status)
            && (forall c :: c in db.checks && after.checks[c].status != Cancelled ==> Shows(after.checks[c].status, after.runs, c))
  {
    BatchEffect(db, node, batch, clock);
    var after := ApplyBatch(db, node, batch, clock);
    forall i | 0 <= i < |batch| && (forall j :: i < j < |batch| ==> batch[j].runId != batch[i].runId)
      ensures after.runs[batch[i].runId].status == if batch[i].success then Done else Errored
    {
      LastAt(batch, i);
    }
    forall r | r in db.runs && forall i :: 0 <= i < |batch| ==> batch[i].runId != r ensures after.runs[r].status == db.runs[r].status {
      LastNowhere(batch, r);
    }
    forall c | c in db.checks && after.checks[c].status != Cancelled ensures Shows(after.checks[c].status, after.runs, c) {
      AgreesIsShows(after.checks[c].status, after.runs, c);
    }
  }

  lemma {:induction false} LastAt(batch: Batch, i: nat)
    requires i < |batch| && forall j :: i < j < |batch| ==> batch[j].runId != batch[i].runId
    ensures Last(batch, batch[i].runId) == Some(batch[i].success)
  {
    var n := |batch| - 1;
    if i < n { LastAt(batch[..n], i); }
  }

  lemma {:induction false} LastNowhere(batch: Batch, r: Id)
    requires forall i :: 0 <= i < |batch| ==> batch[i].runId != r
    ensures Last(batch, r) == None
  {
    if batch != [] { LastNowhere(batch[..|batch| - 1], r); }
  }

  /** Submission `i`, after those before it. */
  method Submit(st: Store, ghost start: Db, node: Id, batch: Batch, i: nat, clock: nat -> nat) returns (found: bool)
    requires i < |batch| && AllOwned(start, node, batch[..i]) && st.Tables() == ApplyBatch(start, node, batch[..i], clock)
    modifies st
    ensures found == Owned(start, batch[i].runId, node)
    ensures found ==> AllOwned(start, node, batch[..i + 1])
    ensures st.Tables() == ApplyBatch(start, node, batch[..if found then i + 1 else i], clock)
    ensures old(st.Valid()) ==> st.Valid()
  {
    OneMoreApplied(start, node, batch, i, clock);
    found := st.CompleteCheckRun(batch[i].runId, node, batch[i].success, clock(i));
  }

  lemma OneMoreApplied(start: Db, node: Id, batch: Batch, i: nat, clock: nat -> nat)
    requires i < |batch|
    ensures var mid := ApplyBatch(start, node, batch[..i], clock);
            && (Owned(mid, batch[i].runId, node) <==> Owned(start, batch[i].runId, node))
            && Complete(mid, batch[i].runId, node, batch[i].success, clock(i)) == ApplyBatch(start, node, batch[..i + 1], clock)
  {
    BatchKeepsRows(start, node, batch[..i], clock);
    assert batch[..i + 1][..i] == batch[..i];
  }

  lemma {:induction false} BatchKeepsRows(db: Db, node: Id, batch: Batch, clock: nat -> nat)
    ensures var after := ApplyBatch(db, node, batch, clock);
            && after.checks.Keys == db.checks.Keys
            && after.runs.Keys == db.runs.Keys
            && forall r :: r in db.runs ==> after.runs[r].nodeId == db.runs[r].nodeId && after.runs[r].checkId == db.runs[r].checkId
  {
    if batch != [] {
      BatchKeepsRows(db, node, batch[..|batch| - 1], clock);
    }
  }

  function StatusAfter(run: Run, batch: Batch, r: Id): RunStatus {
    match Last(batch, r)
    case Some(success) => Outcome(success)
    case None => run.status
  }

  /** The whole effect of an owned batch on a reachable state: every run takes the outcome of
      its last submission, the ledger grows by the batch, and each check shows what its runs
      now amount to. */
  ghost predicate Effect(db: Db, after: Db, batch: Batch) {
    && after.results == db.results + batch
    && after.runs.Keys == db.runs.Keys && after.checks.Keys == db.checks.Keys
    && (forall r :: r in db.runs ==> after.runs[r].checkId == db.runs[r].checkId && after.runs[r].nodeId == db.runs[r].nodeId)
    && (forall r :: r in db.runs ==> after.runs[r].status == StatusAfter(db.runs[r], batch, r))
    && (forall c :: c in db.checks ==> ShowsOutcome(db.checks[c].status, after.checks[c].status, after.runs, c))
  }

  predicate ShowsOutcome(before: CheckStatus, after: CheckStatus, runs: map<Id, Run>, c: Id) {
    if before.Cancelled? || !HasRun(runs, c) || !NoActive(runs, c) then after == before
    else after == Verdict(runs, c)
  }

  lemma {:induction false} BatchEffect(db: Db, node: Id, batch: Batch, clock: nat -> nat)
    requires Inv(db) && AllOwned(db, node, batch)
    ensures Inv(ApplyBatch(db, node, batch, clock))
    ensures Effect(db, ApplyBatch(db, node, batch, clock), batch)
  {
    if batch == [] {
      forall c | c in db.checks ensures Agrees(db.checks[c].status, db.runs, c) {}
    } else {
      var n := |batch| - 1;
      BatchEffect(db, node, batch[..n], clock);
      CompleteKeepsInv(ApplyBatch(db, node, batch[..n], clock), batch[n].runId, node, batch[n].success, clock(n));
      EffectOfOneMore(db, ApplyBatch(db, node, batch[..n], clock), node, batch, clock(n));
    }
  }

  lemma EffectOfOneMore(db: Db, mid: Db, node: Id, batch: Batch, now: nat)
    requires batch != [] && Owned(mid, batch[|batch| - 1].runId, node) && Effect(db, mid, batch[..|batch| - 1])
    ensures Effect(db, Complete(mid, batch[|batch| - 1].runId, node, batch[|batch| - 1].success, now), batch)
  {
    var last := batch[|batch| - 1];
    var after := Complete(mid, last.runId, node, last.success, now);
    forall c | c in db.checks ensures ShowsOutcome(db.checks[c].status, after.checks[c].status, after.runs, c) {
      OneMoreShows(db.checks[c].status, mid, last.runId, node, last.success, now, c);
    }
    EffectExtends(db, mid, after, batch, after.runs[last.runId]);
  }

  lemma EffectExtends(db: Db, mid: Db, after: Db, batch: Batch, over: Run)
    requires batch != [] && Effect(db, mid, batch[..|batch| - 1])
    requires var last := batch[|batch| - 1];
             && last.runId in mid.runs
             && after.runs == mid.runs[last.runId := over]
             && over.status == Outcome(last.success)
             && over.checkId == mid.runs[last.runId].checkId && over.nodeId == mid.runs[last.runId].nodeId
             && after.results == mid.results + [last] && after.checks.Keys == mid.checks.Keys
    requires forall c :: c in db.checks ==> ShowsOutcome(db.checks[c].status, after.checks[c].status, after.runs, c)
    ensures Effect(db, after, batch)
  {
    var n := |batch| - 1;
    assert batch == batch[..n] + [batch[n]];
    assert after.results == db.results + batch;
  }

  lemma OneMoreShows(before: CheckStatus, mid: Db, run: Id, node: Id, success: bool, now: nat, c: Id)
    requires Owned(mid, run, node) && c in mid.checks && ShowsOutcome(before, mid.checks[c].status, mid.runs, c)
    ensures var after := Complete(mid, run, node, success, now);
            c in after.checks && ShowsOutcome(before, after.checks[c].status, after.runs, c)
  {
    var after := Complete(mid, run, node, success, now);
    if c != mid.runs[run].checkId {
      AgreesDependsOnRuns(mid.checks[c].status, mid.runs, after.runs, c);
    } else {
      assert run in after.runs && after.runs[run].checkId == c;
      if !NoActive(after.runs, c) {
        var a :| a in after.runs && after.runs[a].checkId == c && Active(after.runs[a].status);
        assert a in mid.runs && mid.runs[a] == after.runs[a];
      }
    }
  }

  /** Sending the same batch again changes no status; the ledger grows by its owned prefix. */
  lemma ResendChangesNoStatus(db: Db, node: Id, batch: Batch, k: nat, clock: nat -> nat, clock2: nat -> nat)
    requires Inv(db) && OwnedPrefix(db, node, batch, k)
    ensures var once := ApplyBatch(db, node, batch[..k], clock);
            var twice := ApplyBatch(once, node, batch[..k], clock2);
            && OwnedPrefix(once, node, batch, k)
            && twice.runs.Keys == once.runs.Keys && twice.checks.Keys == once.checks.Keys
            && (forall r :: r in once.runs ==> twice.runs[r].status == once.runs[r].status)
            && (forall c :: c in once.checks ==> twice.checks[c].status == once.checks[c].status)
            && |once.results| == |db.results| + k && |twice.results| == |once.results| + k
  {
    var once := ApplyBatch(db, node, batch[..k], clock);
    BatchEffect(db, node, batch[..k], clock);
    assert AllOwned(once, node, batch[..k]);
    BatchEffect(once, node, batch[..k], clock2);
    var twice := ApplyBatch(once, node, batch[..k], clock2);
    SameRunsSameChecks(once, once, twice, [], batch[..k]);
  }

  /** Two batches that give every run the same last outcome end in the same statuses. */
  lemma SameRunsSameChecks(db: Db, a: Db, b: Db, batchA: Batch, batchB: Batch)
    requires Inv(db) && Inv(a) && a.checks.Keys == db.checks.Keys && a.runs.Keys == db.runs.Keys
    requires a == db || Effect(db, a, batchA)
    requires Effect(db, b, batchB)
    requires forall r :: r in db.runs ==> a.runs[r].status == b.runs[r].status && a.runs[r].checkId == b.runs[r].checkId
    ensures forall c :: c in db.checks ==> a.checks[c].status == b.checks[c].status
  {
    forall c | c in db.checks ensures a.checks[c].status == b.checks[c].status {
      AgreesDependsOnRuns(a.checks[c].status, a.runs, b.runs, c);
      assert Agrees(a.checks[c].status, a.runs, c) && Agrees(db.checks[c].status, db.runs, c);
    }
  }

  predicate DistinctRuns(batch: Batch) {
    forall i, j :: 0 <= i < j < |batch| ==> batch[i].runId != batch[j].runId
  }

  lemma {:induction false} LastOfDistinct(batch: Batch, r: Id)
    requires DistinctRuns(batch)
    ensures forall s :: Last(batch, r) == Some(s) <==> ResultRow(r, s) in batch
  {
    if batch != [] {
      var n := |batch| - 1;
      LastOfDistinct(batch[..n], r);
      assert batch == batch[..n] + [batch[n]];
      if batch[n].runId == r {
        forall s | ResultRow(r, s) in batch ensures s == batch[n].success {
          var i :| 0 <= i < |batch| && batch[i] == ResultRow(r, s);
        }
      } else {
        assert forall s :: ResultRow(r, s) in batch <==> ResultRow(r, s) in batch[..n];
      }
    }
  }

  /** The order of a fully owned batch of distinct runs does not matter to any status. */
  lemma OrderDoesNotMatter(db: Db, node: Id, batch: Batch, shuffled: Batch, clock: nat -> nat, clock2: nat -> nat)
    requires Inv(db) && AllOwned(db, node, batch) && DistinctRuns(batch) && DistinctRuns(shuffled)
    requires multiset(batch) == multiset(shuffled)
    ensures var a := ApplyBatch(db, node, batch, clock);
            var b := ApplyBatch(db, node, shuffled, clock2);
            && a.runs.Keys == b.runs.Keys && a.checks.Keys == b.checks.Keys
            && (forall r :: r in a.runs ==> a.runs[r].status == b.runs[r].status)
            && (forall c :: c in a.checks ==> a.checks[c].status == b.checks[c].status)
  {
    SameMembers(batch, shuffled);
    forall i | 0 <= i < |shuffled| ensures Owned(db, shuffled[i].runId, node) {
      assert shuffled[i] in batch;
    }
    BatchEffect(db, node, batch, clock);
    BatchEffect(db, node, shuffled, clock2);
    forall r ensures Last(batch, r) == Last(shuffled, r) {
      SameLast(batch, shuffled, r);
    }
    SameEffect(db, ApplyBatch(db, node, batch, clock), ApplyBatch(db, node, shuffled, clock2), batch, shuffled);
  }

  lemma SameEffect(db: Db, a: Db, b: Db, batchA: Batch, batchB: Batch)
    requires Inv(db) && Inv(a) && Effect(db, a, batchA) && Effect(db, b, batchB)
    requires forall r :: Last(batchA, r) == Last(batchB, r)
    ensures a.runs.Keys == b.runs.Keys && a.checks.Keys == b.checks.Keys
    ensures forall r :: r in a.runs ==> a.runs[r].status == b.runs[r].status
    ensures forall c :: c in a.checks ==> a.checks[c].status == b.checks[c].status
  {
    SameRunsSameChecks(db, a, b, batchA, batchB);
  }

  lemma SameMembers(batch: Batch, shuffled: Batch)
    requires multiset(batch) == multiset(shuffled)
    ensures forall row :: row in batch <==> row in shuffled
  {
    forall row ensures row in batch <==> row in shuffled {
      assert row in multiset(batch) <==> row in multiset(shuffled);
    }
  }

  lemma SameLast(batch: Batch, shuffled: Batch, r: Id)
    requires DistinctRuns(batch) && DistinctRuns(shuffled)
    requires forall row :: row in batch <==> row in shuffled
    ensures Last(batch, r) == Last(shuffled, r)
  {
    LastOfDistinct(batch, r);
    LastOfDistinct(shuffled, r);
    if Last(batch, r).Some? {
      assert ResultRow(r, Last(batch, r).value) in shuffled;
    }
    if Last(shuffled, r).Some? {
      assert ResultRow(r, Last(shuffled, r).value) in batch;
    }
  }

  // ---- create requests ----

  /** Check `i` of the request exists, still pending, and its runs are one queued run per node
      in node order and no other. */
  ghost predicate FannedOut(db: Db, c: Id, check: Check, runIds: seq<Id>, nodes: seq<Id>) {
    && c in db.checks && db.checks[c] == check
    && |runIds| == |nodes|
    && (forall r :: r in db.runs ==> (db.runs[r].checkId == c <==> r in runIds))
    && (forall j :: 0 <= j < |nodes| ==>
          && runIds[j] in db.runs && db.runs[runIds[j]].nodeId == nodes[j] && db.runs[runIds[j]].status == Queued)
    && (forall i, j :: 0 <= i < j < |runIds| ==> runIds[i] != runIds[j])
  }

  predicate Extends(before: Db, after: Db) {
    && (forall c :: c in before.checks ==> c in after.checks && after.checks[c] == before.checks[c])
    && (forall r :: r in before.runs ==> r in after.runs && after.runs[r] == before.runs[r])
    && after.results == before.results
  }

  function BatchOf(targets: seq<string>, batch: Id): Option<Id> {
    if |targets| > 1 then Some(batch) else None
  }

  predicate FreshRuns(db: Db, ids: seq<Id>) {
    && (forall j :: 0 <= j < |ids| ==> ids[j] !in db.runs)
    && (forall i, j :: 0 <= i < j < |ids| ==> ids[i] != ids[j])
  }

  /** A create request with the keys the database is going to generate for it. */
  datatype Create = Create(account: Id, targets: seq<string>, nodes: seq<Id>, batch: Id,
                           checkIds: seq<Id>, runIds: seq<seq<Id>>, now: nat)

  predicate WellFormed(req: Create) {
    && req.nodes != []
    && |req.checkIds| == |req.runIds| == |req.targets|
    && forall i :: 0 <= i < |req.runIds| ==> |req.runIds[i]| == |req.nodes|
  }

  /** Among the first `n` no generated key clashes with a stored one or with another of them. */
  predicate FreshKeys(db: Db, req: Create, n: nat)
    requires n <= |req.checkIds| == |req.runIds|
  {
    && (forall i :: 0 <= i < n ==> req.checkIds[i] !in db.checks)
    && (forall i, j :: 0 <= i < j < n ==> req.checkIds[i] != req.checkIds[j])
    && (forall i :: 0 <= i < n ==> FreshRuns(db, req.runIds[i]))
    && (forall i, j, r :: 0 <= i < j < n && r in req.runIds[i] ==> r !in req.runIds[j])
  }

  /** The first `n` checks of the request exist, each with its runs. */
  ghost predicate Served(db: Db, req: Create, n: nat)
    requires WellFormed(req) && n <= |req.targets|
  {
    forall i :: 0 <= i < n ==>
      FannedOut(db, req.checkIds[i], Check(req.account, BatchOf(req.targets, req.batch), req.targets[i], Pending, req.now, None),
                req.runIds[i], req.nodes)
  }

  /** The only new rows are the first `c` checks' and the first `n` fan-outs' runs. */
  ghost predicate OnlyNew(before: Db, after: Db, req: Create, c: nat, n: nat)
    requires c <= |req.checkIds| && n <= |req.runIds|
  {
    && (forall k :: k in after.checks && k !in before.checks ==> exists i :: 0 <= i < c && req.checkIds[i] == k)
    && (forall r :: r in after.runs && r !in before.runs ==> exists i :: 0 <= i < n && r in req.runIds[i])
  }

  /** After `n` iterations the next one succeeds exactly when its keys are fresh too. */
  lemma NextFresh(before: Db, after: Db, req: Create, n: nat)
    requires WellFormed(req) && n < |req.targets| && Extends(before, after)
    requires Served(after, req, n) && OnlyNew(before, after, req, n, n) && FreshKeys(before, req, n)
    ensures req.checkIds[n] !in after.checks && FreshRuns(after, req.runIds[n]) <==> FreshKeys(before, req, n + 1)
  {
    if FreshKeys(before, req, n + 1) {
      KeysStillFresh(before, after, req, n);
    }
    if req.checkIds[n] !in after.checks && FreshRuns(after, req.runIds[n]) {
      ServedTaken(after, req, n);
      FreshNow(before, after, req, n);
    }
  }

  /** The keys of what exists are taken. */
  predicate Taken(db: Db, req: Create, n: nat)
    requires n <= |req.checkIds| == |req.runIds|
  {
    && (forall i :: 0 <= i < n ==> req.checkIds[i] in db.checks)
    && (forall i, r :: 0 <= i < n && r in req.runIds[i] ==> r in db.runs)
  }

  lemma ServedTaken(db: Db, req: Create, n: nat)
    requires WellFormed(req) && n <= |req.targets| && Served(db, req, n)
    ensures Taken(db, req, n)
  {
    forall i, r | 0 <= i < n && r in req.runIds[i] ensures r in db.runs {
      assert FannedOut(db, req.checkIds[i], db.checks[req.checkIds[i]], req.runIds[i], req.nodes);
    }
  }

  lemma FreshNow(before: Db, after: Db, req: Create, n: nat)
    requires WellFormed(req) && n < |req.targets| && Extends(before, after) && Taken(after, req, n) && FreshKeys(before, req, n)
    requires req.checkIds[n] !in after.checks && FreshRuns(after, req.runIds[n])
    ensures FreshKeys(before, req, n + 1)
  {
    assert FreshRuns(before, req.runIds[n]);
    forall r | r in req.runIds[n] ensures r !in after.runs {
      var j :| 0 <= j < |req.runIds[n]| && req.runIds[n][j] == r;
    }
  }

  lemma KeysStillFresh(before: Db, after: Db, req: Create, n: nat)
    requires WellFormed(req) && n < |req.targets| && OnlyNew(before, after, req, n, n) && FreshKeys(before, req, n + 1)
    ensures req.checkIds[n] !in after.checks && FreshRuns(after, req.runIds[n])
  {
    assert FreshRuns(before, req.runIds[n]);
    forall j | 0 <= j < |req.runIds[n]| ensures req.runIds[n][j] !in after.runs {
      assert req.runIds[n][j] in req.runIds[n];
    }
  }

  /** One check per target in order, then its runs; the first failing insert ends the request,
      keeping what earlier iterations committed and, if it was an insert of runs, its check. */
  method CreateChecks(st: Store, req: Create) returns (created: bool, ghost served: nat)
    requires st.Valid() && WellFormed(req)
    modifies st
    ensures st.Valid() && Extends(old(st.Tables()), st.Tables())
    ensures created == FreshKeys(old(st.Tables()), req, |req.targets|)
    ensures served <= |req.targets| && created == (served == |req.targets|)
    ensures forall i :: 0 <= i < served ==>
              && req.checkIds[i] in st.checks
              && st.checks[req.checkIds[i]] == Check(req.account, if |req.targets| > 1 then Some(req.batch) else None, req.targets[i], Pending, req.now, None)
              && (forall j :: 0 <= j < |req.nodes| ==>
                    && req.runIds[i][j] in st.runs && st.runs[req.runIds[i][j]].checkId == req.checkIds[i]
                    && st.runs[req.runIds[i][j]].nodeId == req.nodes[j] && st.runs[req.runIds[i][j]].status == Queued)
              && (forall r :: r in st.runs && st.runs[r].checkId == req.checkIds[i] ==> r in req.runIds[i])
    ensures Served(st.Tables(), req, served)
    ensures OnlyNew(old(st.Tables()), st.Tables(), req, if created then served else served + 1, served)
  {
    served := 0;
    var i := 0;
    while i < |req.targets|
      invariant 0 <= i == served <= |req.targets|
      invariant st.Valid() && Extends(old(st.Tables()), st.Tables())
      invariant Served(st.Tables(), req, i) && OnlyNew(old(st.Tables()), st.Tables(), req, i, i)
      invariant FreshKeys(old(st.Tables()), req, i)
    {
      created := CreateNext(st, old(st.Tables()), req, i);
      if !created {
        ServedByRow(st.Tables(), req, served);
        return;
      }
      i, served := i + 1, i + 1;
    }
    ServedByRow(st.Tables(), req, served);
    return true, i;
  }

  lemma ServedByRow(db: Db, req: Create, n: nat)
    requires WellFormed(req) && n <= |req.targets| && Served(db, req, n)
    ensures forall i :: 0 <= i < n ==>
              && req.checkIds[i] in db.checks
              && db.checks[req.checkIds[i]] == Check(req.account, if |req.targets| > 1 then Some(req.batch) else None, req.targets[i], Pending, req.now, None)
              && (forall j :: 0 <= j < |req.nodes| ==>
                    && req.runIds[i][j] in db.runs && db.runs[req.runIds[i][j]].checkId == req.checkIds[i]
                    && db.runs[req.runIds[i][j]].nodeId == req.nodes[j] && db.runs[req.runIds[i][j]].status == Queued)
              && (forall r :: r in db.runs && db.runs[r].checkId == req.checkIds[i] ==> r in req.runIds[i])
  {
    forall i | 0 <= i < n ensures
      && FannedOut(db, req.checkIds[i], Check(req.account, BatchOf(req.targets, req.batch), req.targets[i], Pending, req.now, None),
                   req.runIds[i], req.nodes)
    {
    }
  }

  /** Iteration `i`, after those before it. */
  method CreateNext(st: Store, ghost before: Db, req: Create, i: nat) returns (created: bool)
    requires st.Valid() && WellFormed(req) && i < |req.targets|
    requires Extends(before, st.Tables()) && Served(st.Tables(), req, i) && OnlyNew(before, st.Tables(), req, i, i)
    requires FreshKeys(before, req, i)
    modifies st
    ensures st.Valid() && Extends(before, st.Tables())
    ensures created == FreshKeys(before, req, i + 1)
    ensures Served(st.Tables(), req, if created then i + 1 else i)
    ensures OnlyNew(before, st.Tables(), req, i + 1, if created then i + 1 else i)
  {
    var batchId := if |req.targets| > 1 then Some(req.batch) else None;
    NextFresh(before, st.Tables(), req, i);
    ghost var mid := st.Tables();
    created := CreateAndFanOut(st, req.account, batchId, req.targets[i], req.nodes, req.checkIds[i], req.runIds[i], req.now);
    NextOnlyNew(before, mid, st.Tables(), req, i, created);
    NextServed(mid, st.Tables(), req, i, created);
    ExtendsTrans(before, mid, st.Tables());
  }

  lemma ExtendsTrans(a: Db, b: Db, c: Db)
    requires Extends(a, b) && Extends(b, c)
    ensures Extends(a, c)
  {
  }

  lemma NextServed(mid: Db, after: Db, req: Create, i: nat, created: bool)
    requires WellFormed(req) && i < |req.targets| && Served(mid, req, i) && Extends(mid, after)
    requires forall r :: r in after.runs && r !in mid.runs ==> after.runs[r].checkId !in mid.checks
    requires created ==> FannedOut(after, req.checkIds[i], Check(req.account, BatchOf(req.targets, req.batch), req.targets[i], Pending, req.now, None),
                                   req.runIds[i], req.nodes)
    ensures Served(after, req, if created then i + 1 else i)
  {
    ServedStays(mid, after, req, i);
  }

  /** New runs belong to new checks, so a fan-out that is complete stays so. */
  lemma ServedStays(before: Db, after: Db, req: Create, n: nat)
    requires WellFormed(req) && n <= |req.targets| && Served(before, req, n) && Extends(before, after)
    requires forall r :: r in after.runs && r !in before.runs ==> after.runs[r].checkId !in before.checks
    ensures Served(after, req, n)
  {
    forall i | 0 <= i < n
      ensures FannedOut(after, req.checkIds[i], Check(req.account, BatchOf(req.targets, req.batch), req.targets[i], Pending, req.now, None),
                        req.runIds[i], req.nodes)
    {
      FannedOutStays(before, after, req.checkIds[i], before.checks[req.checkIds[i]], req.runIds[i], req.nodes);
    }
  }

  lemma FannedOutStays(before: Db, after: Db, c: Id, check: Check, ids: seq<Id>, nodes: seq<Id>)
    requires FannedOut(before, c, check, ids, nodes) && Extends(before, after)
    requires forall r :: r in after.runs && r !in before.runs ==> after.runs[r].checkId !in before.checks
    ensures FannedOut(after, c, check, ids, nodes)
  {
  }

  lemma NextOnlyNew(before: Db, mid: Db, after: Db, req: Create, i: nat, created: bool)
    requires WellFormed(req) && i < |req.targets| && OnlyNew(before, mid, req, i, i)
    requires forall k :: k in after.checks ==> k in mid.checks || k == req.checkIds[i]
    requires forall r :: r in after.runs ==> r in mid.runs || (created && r in req.runIds[i])
    ensures OnlyNew(before, after, req, i + 1, if created then i + 1 else i)
  {
    forall k | k in after.checks && k !in before.checks ensures exists j :: 0 <= j < i + 1 && req.checkIds[j] == k {
      if k in mid.checks {
        var j :| 0 <= j < i && req.checkIds[j] == k;
      }
    }
    forall r | r in after.runs && r !in before.runs ensures exists j :: 0 <= j < (if created then i + 1 else i) && r in req.runIds[j] {
      if r in mid.runs {
        var j :| 0 <= j < i && r in req.runIds[j];
      }
    }
  }

  method CreateAndFanOut(st: Store, account: Id, batch: Option<Id>, target: string, nodes: seq<Id>,
                         c: Id, runIds: seq<Id>, now: nat) returns (created: bool)
    requires st.Valid() && nodes != [] && |runIds| == |nodes|
    modifies st
    ensures st.Valid()
    ensures Extends(old(st.Tables()), st.Tables())
    ensures created == (c !in old(st.checks) && FreshRuns(old(st.Tables()), runIds))
    ensures forall k :: k in st.checks ==> k in old(st.checks) || k == c
    ensures forall r :: r in st.runs ==> r in old(st.runs) || (created && r in runIds)
    ensures created ==> FannedOut(st.Tables(), c, Check(account, batch, target, Pending, now, None), runIds, nodes)
    ensures forall r :: r in st.runs && r !in old(st.runs) ==> st.runs[r].checkId !in old(st.checks)
  {
    ghost var before := st.Tables();
    var ok := st.CreateCheck(c, account, batch, target, now);
    if !ok { return false; }
    created := st.CreateCheckRuns(c, nodes, runIds, now);
    if created {
      FanOutEffect(before, account, batch, target, nodes, c, runIds, now);
    }
  }

  lemma FanOutEffect(db: Db, account: Id, batch: Option<Id>, target: string, nodes: seq<Id>, c: Id, ids: seq<Id>, now: nat)
    requires |ids| == |nodes| && c !in db.checks
    requires forall r :: r in db.runs ==> db.runs[r].checkId in db.checks
    requires Insertable(InsertCheck(db, c, account, batch, target, now), c, ids)
    ensures var after := InsertRuns(InsertCheck(db, c, account, batch, target, now), c, ids, nodes, now);
            && Extends(db, after)
            && FannedOut(after, c, Check(account, batch, target, Pending, now, None), ids, nodes)
            && forall r :: r in after.runs && r !in db.runs ==> after.runs[r].checkId == c && r in ids
  {
    AddRunsAdds(db.runs, c, ids, nodes, now);
    var runs := AddRuns(db.runs, c, ids, nodes, now);
    assert Added(db.runs, runs, c, ids, nodes, now);
    forall r | r in runs && r !in db.runs ensures runs[r].checkId == c {
      var i :| 0 <= i < |ids| && ids[i] == r;
    }
  }
}
