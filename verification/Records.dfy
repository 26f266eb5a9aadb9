/** Rows of the three tables the dispatch protocol lives in, and the vocabulary its
    invariants are written with. */
module Records {

  type Id = nat

  datatype Option<+T> = None | Some(value: T)

  datatype CheckStatus = Pending | Running | Completed | Partial | Failed | Cancelled

  // Executing is the enum value 'running' of check_run_status; no statement assigns it.
  datatype RunStatus = Queued | Dispatched | Executing | Done | Errored | TimedOut

  datatype Check = Check(account: Id, batch: Option<Id>, target: string,
                         status: CheckStatus, createdAt: nat, completedAt: Option<nat>)

  datatype Run = Run(checkId: Id, nodeId: Id, status: RunStatus,
                     createdAt: nat, dispatchedAt: Option<nat>, completedAt: Option<nat>)

  datatype ResultRow = ResultRow(runId: Id, success: bool)

  datatype Db = Db(checks: map<Id, Check>, runs: map<Id, Run>, results: seq<ResultRow>)

  const EMPTY := Db(map[], map[], [])

  predicate Active(s: RunStatus) {
    s.Queued? || s.Dispatched? || s.Executing?
  }

  predicate Open(s: CheckStatus) {
    s.Pending? || s.Running?
  }

  predicate Settled(s: CheckStatus) {
    s.Completed? || s.Partial? || s.Failed?
  }

  /** How far a run still has to go; no step may raise it. */
  function Rank(s: RunStatus): nat {
    if s.Queued? then 2 else if Active(s) then 1 else 0
  }

  predicate HasRun(runs: map<Id, Run>, c: Id) {
    exists r :: r in runs && runs[r].checkId == c
  }

  predicate NoActive(runs: map<Id, Run>, c: Id) {
    forall r :: r in runs && runs[r].checkId == c ==> !Active(runs[r].status)
  }

  predicate NoFailure(runs: map<Id, Run>, c: Id) {
    forall r :: r in runs && runs[r].checkId == c ==> !(runs[r].status.Errored? || runs[r].status.TimedOut?)
  }

  predicate NoSuccess(runs: map<Id, Run>, c: Id) {
    forall r :: r in runs && runs[r].checkId == c ==> !runs[r].status.Done?
  }

  /** The outcome a check owes its runs once none of them is active. */
  function Verdict(runs: map<Id, Run>, c: Id): CheckStatus {
    if NoFailure(runs, c) then Completed else if NoSuccess(runs, c) then Failed else Partial
  }

  /** A check and its runs agree: a cancelled check owes its runs nothing, one without runs
      is still pending, one with an active run is open, and one whose runs are all over
      shows their verdict. */
  predicate Agrees(status: CheckStatus, runs: map<Id, Run>, c: Id) {
    || status.Cancelled?
    || (if !HasRun(runs, c) then status.Pending?
        else if !NoActive(runs, c) then Open(status)
        else status == Verdict(runs, c))
  }

  // ---- the same, run status by run status ----

  /** What a check that is not cancelled shows: pending without runs, open while a run is queued,
      dispatched or executing; once every run is over, completed if all are done, failed if none
      is, partial if some are and some are not. */
  predicate Shows(status: CheckStatus, runs: map<Id, Run>, c: Id) {
    && ((forall r :: r in runs ==> runs[r].checkId != c) ==> status == Pending)
    && ((exists r :: r in runs && runs[r].checkId == c && (runs[r].status.Queued? || runs[r].status.Dispatched? || runs[r].status.Executing?))
        ==> status == Pending || status == Running)
    && ((exists r :: r in runs && runs[r].checkId == c)
        && (forall r :: r in runs && runs[r].checkId == c ==> runs[r].status.Done? || runs[r].status.Errored? || runs[r].status.TimedOut?)
        ==> ShowsOver(status, runs, c))
  }

  predicate ShowsOver(status: CheckStatus, runs: map<Id, Run>, c: Id) {
    && (status == Completed || status == Failed || status == Partial)
    && (status == Completed <==> forall r :: r in runs && runs[r].checkId == c ==> runs[r].status.Done?)
    && (status == Failed <==> forall r :: r in runs && runs[r].checkId == c ==> !runs[r].status.Done?)
    && (status == Partial <==> (exists r :: r in runs && runs[r].checkId == c && runs[r].status.Done?)
                               && (exists r :: r in runs && runs[r].checkId == c && (runs[r].status.Errored? || runs[r].status.TimedOut?)))
  }

  lemma VerdictShows(runs: map<Id, Run>, c: Id)
    requires HasRun(runs, c) && NoActive(runs, c)
    ensures forall status :: ShowsOver(status, runs, c) <==> status == Verdict(runs, c)
  {
    var h :| h in runs && runs[h].checkId == c;
    forall r | r in runs && runs[r].checkId == c ensures runs[r].status.Done? || runs[r].status.Errored? || runs[r].status.TimedOut? {
      assert !Active(runs[r].status);
    }
    if !NoFailure(runs, c) {
      var f :| f in runs && runs[f].checkId == c && (runs[f].status.Errored? || runs[f].status.TimedOut?);
    }
    if !NoSuccess(runs, c) {
      var d :| d in runs && runs[d].checkId == c && runs[d].status.Done?;
    }
  }

  /** Agreement is exactly that, or cancellation. */
  lemma AgreesIsShows(status: CheckStatus, runs: map<Id, Run>, c: Id)
    ensures Agrees(status, runs, c) <==> status == Cancelled || Shows(status, runs, c)
  {
    if HasRun(runs, c) {
      var h :| h in runs && runs[h].checkId == c;
      if NoActive(runs, c) {
        VerdictShows(runs, c);
      } else {
        var a :| a in runs && runs[a].checkId == c && Active(runs[a].status);
      }
    }
  }
}
