/** The same transactions with their statements interleaved at READ COMMITTED: a statement sees
    the rows committed when it starts plus its own transaction's writes, visits the rows it
    found one by one, waits for rows another transaction has written, and looks at the latest
    committed version again before writing. A claim skips locked rows instead of waiting. Any
    transaction may abort at any point. */
module Interleaving {
  import opened Records
  import Lifecycle

  datatype Kind = Completing | Sweeping | Claiming(node: Id) | Cancelling(check: Id) | Creating(check: Id)

  /** The statement a transaction executes next, with the rows it has still to visit. */
  datatype Pc =
    | MarkRun(run: Id, node: Id, success: bool)
    | Expiring(rows: set<Id>, hit: set<Id>)
    | Counting(checks: set<Id>)
    | Settling(check: Id, verdict: CheckStatus, checks: set<Id>)
    | Selecting(limit: nat, rows: set<Id>)
    | Dispatching
    | StartScan
    | Starting(checks: set<Id>)
    | CancelMark(account: Id)
    | CancelScan
    | CancelRuns(rows: set<Id>)
    | Inserting(left: seq<(Id, Id)>)
    | Ready

  /** Locks on run rows, uncommitted versions of run and check rows, and the checks this
      transaction has counted. A check row is locked by whoever has written it. */
  datatype Tx = Tx(kind: Kind, pc: Pc, runLocks: set<Id>, runW: map<Id, Run>, checkW: map<Id, CheckStatus>, counted: set<Id>)

  datatype Handout = Handout(node: Id, runs: set<Id>)

  /** Committed tables, open transactions, the checks whose fan-out has begun, and what each
      committed claim handed out. */
  datatype Sys = Sys(checks: map<Id, Check>, runs: map<Id, Run>, txs: map<Id, Tx>, begun: set<Id>, handouts: seq<Handout>)

  const START := Sys(map[], map[], map[], {}, [])

  function View(s: Sys, x: Tx): map<Id, Run> {
    s.runs + x.runW
  }

  predicate RunFree(s: Sys, me: Id, r: Id) {
    forall t :: t in s.txs && t != me ==> r !in s.txs[t].runLocks
  }

  predicate CheckFree(s: Sys, me: Id, c: Id) {
    forall t :: t in s.txs && t != me ==> c !in s.txs[t].checkW
  }

  datatype Outcome = Blocked | Rollback | Go(tx: Tx)

  function WriteRun(x: Tx, r: Id, run: Run): Tx {
    x.(runLocks := x.runLocks + {r}, runW := x.runW[r := run])
  }

  /** The versions a claim writes of the rows it has locked. */
  function HandedOut(s: Sys, x: Tx): map<Id, Run> {
    map r | r in x.runLocks && r in s.runs :: s.runs[r].(status := Dispatched)
  }

  /** One move of transaction `me`; `row` says which of the rows still to visit it takes. */
  function Work(s: Sys, me: Id, row: Id): Outcome
    requires me in s.txs
  {
    var x := s.txs[me];
    match x.pc
    case MarkRun(run, node, success) =>
      if run !in s.runs || s.runs[run].nodeId != node then Rollback
      else if !RunFree(s, me, run) then Blocked
      else Go(WriteRun(x, run, s.runs[run].(status := if success then Done else Errored)).(pc := Counting({s.runs[run].checkId})))
    case Expiring(rows, hit) =>
      if rows == {} then Go(x.(pc := Counting(hit)))
      else if row !in rows || row !in s.runs || !RunFree(s, me, row) then Blocked
      else if !Active(s.runs[row].status) then Go(x.(pc := Expiring(rows - {row}, hit)))
      else Go(WriteRun(x, row, s.runs[row].(status := TimedOut)).(pc := Expiring(rows - {row}, hit + {s.runs[row].checkId})))
    case Counting(checks) =>
      if checks == {} then Go(x.(pc := Ready))
      else if row !in checks then Blocked
      else
        var left := checks - {row};
        if NoActive(View(s, x), row)
        then Go(x.(pc := Settling(row, Verdict(View(s, x), row), left), counted := x.counted + {row}))
        else Go(x.(pc := Counting(left), counted := x.counted + {row}))
    case Settling(c, verdict, checks) =>
      if !CheckFree(s, me, c) then Blocked
      else if c in s.checks && !s.checks[c].status.Cancelled?
      then Go(x.(pc := Counting(checks), checkW := x.checkW[c := verdict]))
      else Go(x.(pc := Counting(checks)))
    case Selecting(limit, rows) =>
      if rows == {} || |x.runLocks| >= limit then Go(x.(pc := Dispatching))
      else if row !in rows || row !in s.runs then Blocked
      else if RunFree(s, me, row) && s.runs[row].status.Queued?
      then Go(x.(runLocks := x.runLocks + {row}, pc := Selecting(limit, rows - {row})))
      else Go(x.(pc := Selecting(limit, rows - {row})))
    case Dispatching =>
      Go(x.(pc := StartScan, runW := HandedOut(s, x)))
    case StartScan =>
      Go(x.(pc := Starting(set r | r in x.runW && x.runW[r].checkId in s.checks && s.checks[x.runW[r].checkId].status.Pending? :: x.runW[r].checkId)))
    case Starting(checks) =>
      if checks == {} then Go(x.(pc := Ready))
      else if row !in checks || !CheckFree(s, me, row) then Blocked
      else if row in s.checks && s.checks[row].status.Pending?
      then Go(x.(pc := Starting(checks - {row}), checkW := x.checkW[row := Running]))
      else Go(x.(pc := Starting(checks - {row})))
    case CancelMark(account) =>
      if !x.kind.Cancelling? then Rollback
      else
        var c := x.kind.check;
        if !CheckFree(s, me, c) then Blocked
        else if c in s.checks && s.checks[c].account == account && Open(s.checks[c].status)
        then Go(x.(pc := CancelScan, checkW := x.checkW[c := Cancelled]))
        else Rollback
    case CancelScan =>
      if !x.kind.Cancelling? then Rollback
      else Go(x.(pc := CancelRuns(set r | r in s.runs && s.runs[r].checkId == x.kind.check && Active(s.runs[r].status))))
    case CancelRuns(rows) =>
      if rows == {} then Go(x.(pc := Ready))
      else if row !in rows || row !in s.runs || !RunFree(s, me, row) then Blocked
      else if Active(s.runs[row].status)
      then Go(WriteRun(x, row, s.runs[row].(status := Errored)).(pc := CancelRuns(rows - {row})))
      else Go(x.(pc := CancelRuns(rows - {row})))
    case Inserting(left) =>
      if left == [] then Go(x.(pc := Ready))
      else if !x.kind.Creating? || left[0].0 in s.runs || left[0].0 in x.runW then Rollback
      else if !RunFree(s, me, left[0].0) then Blocked
      else Go(WriteRun(x, left[0].0, Run(x.kind.check, left[0].1, Queued, 0, None, None)).(pc := Inserting(left[1..])))
    case Ready => Blocked
  }

  datatype Action =
    | AddCheck(id: Id, account: Id, target: string)
    | BeginComplete(t: Id, run: Id, node: Id, success: bool)
    | BeginSweep(t: Id, cutoff: int)
    | BeginClaim(t: Id, node: Id, limit: nat)
    | BeginCancel(t: Id, account: Id, check: Id)
    | BeginCreate(t: Id, check: Id, rows: seq<(Id, Id)>)
    | Move(t: Id, row: Id)
    | Commit(t: Id)
    | Abort(t: Id)

  function Fresh(kind: Kind, pc: Pc): Tx {
    Tx(kind, pc, {}, map[], map[], {})
  }

  predicate Enabled(s: Sys, a: Action) {
    match a
    case AddCheck(id, _, _) => id !in s.checks
    case BeginCreate(t, c, rows) => t !in s.txs && c in s.checks && c !in s.begun
    case Move(t, row) => t in s.txs && !Work(s, t, row).Blocked?
    case Commit(t) => t in s.txs && s.txs[t].pc.Ready?
    case Abort(t) => t in s.txs
    case _ => a.t !in s.txs
  }

  function Begin(s: Sys, t: Id, x: Tx): Sys {
    s.(txs := s.txs[t := x])
  }

  function Committed(s: Sys, x: Tx): map<Id, Check> {
    map c | c in s.checks :: if c in x.checkW then s.checks[c].(status := x.checkW[c]) else s.checks[c]
  }

  function Do(s: Sys, a: Action): Sys
    requires Enabled(s, a)
  {
    match a
    case AddCheck(id, account, target) => s.(checks := s.checks[id := Check(account, None, target, Pending, 0, None)])
    case BeginComplete(t, run, node, success) => Begin(s, t, Fresh(Completing, MarkRun(run, node, success)))
    case BeginSweep(t, cutoff) =>
      Begin(s, t, Fresh(Sweeping, Expiring(set r | r in s.runs && Active(s.runs[r].status) && s.runs[r].createdAt as int < cutoff, {})))
    case BeginClaim(t, node, limit) =>
      Begin(s, t, Fresh(Claiming(node), Selecting(limit, set r | r in s.runs && s.runs[r].nodeId == node && s.runs[r].status.Queued?)))
    case BeginCancel(t, account, c) => Begin(s, t, Fresh(Cancelling(c), CancelMark(account)))
    case BeginCreate(t, c, rows) => Begin(s, t, Fresh(Creating(c), Inserting(rows))).(begun := s.begun + {c})
    case Move(t, row) =>
      match Work(s, t, row) {
        case Go(x) => Begin(s, t, x)
        case _ => s.(txs := s.txs - {t})
      }
    case Commit(t) =>
      var x := s.txs[t];
      Sys(Committed(s, x), View(s, x), s.txs - {t}, s.begun,
          if x.kind.Claiming? then s.handouts + [Handout(x.kind.node, x.runLocks)] else s.handouts)
    case Abort(t) => s.(txs := s.txs - {t})
  }

  ghost predicate Execution(states: seq<Sys>, acts: seq<Action>) {
    && |states| == |acts| + 1
    && states[0] == START
    && forall i {:trigger acts[i]} :: 0 <= i < |acts| ==> Enabled(states[i], acts[i]) && states[i + 1] == Do(states[i], acts[i])
  }

  // ---- the invariant of every interleaving ----

  /** What holds of the rows a transaction has written but not committed. */
  predicate WritesOk(s: Sys, x: Tx) {
    && (forall r :: r in x.runW ==> r in x.runLocks)
    && (forall r :: r in x.runW && r in s.runs ==>
          && x.runW[r].checkId == s.runs[r].checkId && x.runW[r].nodeId == s.runs[r].nodeId && x.runW[r].createdAt == s.runs[r].createdAt
          && !x.runW[r].status.Queued?
          && (Active(x.runW[r].status) ==> s.runs[r].status.Queued? && x.kind.Claiming?))
    && (forall r :: r in x.runW && r !in s.runs ==> x.kind.Creating? && x.runW[r].checkId == x.kind.check && x.runW[r].status.Queued?)
    && (x.kind.Creating? ==> x.kind.check in s.begun && x.kind.check in s.checks && !HasRun(s.runs, x.kind.check) && x.checkW == map[])
    && (forall r :: r in x.runW ==> !x.runW[r].status.Executing?)
    && (x.kind.Claiming? ==> forall r :: r in x.runLocks ==> r in s.runs && s.runs[r].status.Queued? && s.runs[r].nodeId == x.kind.node)
  }

  predicate CheckWritesOk(s: Sys, x: Tx) {
    forall c :: c in x.checkW ==>
      && c in s.checks
      && !x.checkW[c].Pending?
      && (x.checkW[c].Running? ==> s.checks[c].status.Pending?)
      && (x.checkW[c].Cancelled? ==> Open(s.checks[c].status))
      && (Settled(x.checkW[c]) ==> !s.checks[c].status.Cancelled? && HasRun(s.runs, c) && NoActive(View(s, x), c))
  }

  predicate HaveRuns(s: Sys, checks: set<Id>) {
    forall c :: c in checks ==> HasRun(s.runs, c)
  }

  predicate PcOk(s: Sys, x: Tx) {
    match x.pc
    case MarkRun(_, _, _) => x.kind.Completing? && x.checkW == map[]
    case Expiring(rows, hit) => x.kind.Sweeping? && HaveRuns(s, hit) && x.checkW == map[]
    case Counting(checks) => (x.kind.Completing? || x.kind.Sweeping?) && HaveRuns(s, checks)
    case Settling(c, verdict, checks) =>
      && (x.kind.Completing? || x.kind.Sweeping?) && HaveRuns(s, checks)
      && Settled(verdict) && HasRun(s.runs, c) && NoActive(View(s, x), c)
    case Selecting(_, rows) =>
      && x.kind.Claiming? && x.runW == map[]
      && (forall r :: r in rows ==> r in s.runs && s.runs[r].nodeId == x.kind.node)
    case Dispatching => x.kind.Claiming? && x.runW == map[]
    case StartScan => x.kind.Claiming? && x.runLocks == x.runW.Keys
    case Starting(checks) => x.kind.Claiming? && x.runLocks == x.runW.Keys && Started(s, x, checks)
    case CancelMark(_) => x.kind.Cancelling?
    case CancelScan => x.kind.Cancelling?
    case CancelRuns(_) => x.kind.Cancelling?
    case Inserting(_) => x.kind.Creating?
    case Ready => x.kind.Claiming? ==> x.runLocks == x.runW.Keys && Started(s, x, {})
  }

  /** Every check the claim hands out a run of is past pending, except those still to visit. */
  predicate Started(s: Sys, x: Tx, left: set<Id>) {
    forall r :: r in x.runW && x.runW[r].checkId in s.checks ==>
      x.runW[r].checkId in left || x.runW[r].checkId in x.checkW || !s.checks[x.runW[r].checkId].status.Pending?
  }

  /** Two open transactions never hold the same row, and never fan out the same check. */
  predicate Apart(x: Tx, y: Tx) {
    && x.runLocks !! y.runLocks
    && x.checkW.Keys !! y.checkW.Keys
    && !(x.kind.Creating? && y.kind.Creating? && x.kind.check == y.kind.check)
  }

  predicate TablesOk(s: Sys) {
    && (forall r :: r in s.runs ==> s.runs[r].checkId in s.checks && s.runs[r].checkId in s.begun && !s.runs[r].status.Executing?)
    && (forall c :: c in s.checks && Settled(s.checks[c].status) ==> HasRun(s.runs, c) && NoActive(s.runs, c))
    && Lifecycle.NotPendingOnceClaimed(s.checks, s.runs)
  }

  predicate HandoutsOk(s: Sys) {
    && (forall i, r :: 0 <= i < |s.handouts| && r in s.handouts[i].runs ==>
          r in s.runs && !s.runs[r].status.Queued? && s.runs[r].nodeId == s.handouts[i].node)
    && (forall i, j :: 0 <= i < j < |s.handouts| ==> s.handouts[i].runs !! s.handouts[j].runs)
  }

  predicate TxOk(s: Sys, x: Tx) {
    WritesOk(s, x) && CheckWritesOk(s, x) && PcOk(s, x)
  }

  predicate Inv(s: Sys) {
    && TablesOk(s)
    && HandoutsOk(s)
    && (forall t :: t in s.txs ==> TxOk(s, s.txs[t]))
    && (forall t, u :: t in s.txs && u in s.txs && t != u ==> Apart(s.txs[t], s.txs[u]))
  }

  /** Overwriting a committed row with a version that is no longer active. */
  lemma EndRunOk(s: Sys, x: Tx, r: Id, status: RunStatus, pc: Pc)
    requires WritesOk(s, x) && CheckWritesOk(s, x) && !x.kind.Claiming?
    requires r in s.runs && !Active(status)
    ensures var y := WriteRun(x, r, s.runs[r].(status := status)).(pc := pc);
            WritesOk(s, y) && CheckWritesOk(s, y)
  {
    var y := WriteRun(x, r, s.runs[r].(status := status)).(pc := pc);
    forall c | c in y.checkW ensures Settled(y.checkW[c]) ==> NoActive(View(s, y), c) {
      if Settled(y.checkW[c]) { assert NoActive(View(s, x), c); }
    }
  }

  lemma CompleteMove(s: Sys, t: Id, row: Id)
    requires TablesOk(s) && t in s.txs && TxOk(s, s.txs[t]) && s.txs[t].pc.MarkRun? && Work(s, t, row).Go?
    ensures TxOk(s, Work(s, t, row).tx)
  {
    var x := s.txs[t];
    EndRunOk(s, x, x.pc.run, if x.pc.success then Done else Errored, Counting({s.runs[x.pc.run].checkId}));
    assert HasRun(s.runs, s.runs[x.pc.run].checkId);
  }

  lemma SweepMove(s: Sys, t: Id, row: Id)
    requires TablesOk(s) && t in s.txs && TxOk(s, s.txs[t]) && s.txs[t].pc.Expiring? && Work(s, t, row).Go?
    ensures TxOk(s, Work(s, t, row).tx)
  {
    var x := s.txs[t];
    if row in x.pc.rows && Active(s.runs[row].status) {
      EndRunOk(s, x, row, TimedOut, Expiring(x.pc.rows - {row}, x.pc.hit + {s.runs[row].checkId}));
      assert HasRun(s.runs, s.runs[row].checkId);
    }
  }

  /** Counting and moving on change no written row. */
  lemma SameWritesOk(s: Sys, x: Tx, y: Tx)
    requires WritesOk(s, x) && CheckWritesOk(s, x)
    requires y.kind == x.kind && y.runLocks == x.runLocks && y.runW == x.runW && y.checkW == x.checkW
    ensures WritesOk(s, y) && CheckWritesOk(s, y) && View(s, y) == View(s, x)
  {
  }

  lemma CountMove(s: Sys, t: Id, row: Id)
    requires t in s.txs && TxOk(s, s.txs[t]) && s.txs[t].pc.Counting? && Work(s, t, row).Go?
    ensures TxOk(s, Work(s, t, row).tx)
  {
    SameWritesOk(s, s.txs[t], Work(s, t, row).tx);
  }

  lemma SettleMove(s: Sys, t: Id, row: Id)
    requires t in s.txs && TxOk(s, s.txs[t]) && s.txs[t].pc.Settling? && Work(s, t, row).Go?
    ensures TxOk(s, Work(s, t, row).tx)
  {
    var x := s.txs[t];
    var y := Work(s, t, row).tx;
    assert View(s, y) == View(s, x);
    assert WritesOk(s, y) && PcOk(s, y);
    forall c | c in y.checkW && c != x.pc.check ensures c in x.checkW && x.checkW[c] == y.checkW[c] {}
  }

  lemma SelectMove(s: Sys, t: Id, row: Id)
    requires t in s.txs && TxOk(s, s.txs[t]) && s.txs[t].pc.Selecting? && Work(s, t, row).Go?
    ensures TxOk(s, Work(s, t, row).tx)
  {
    var x := s.txs[t];
    var y := Work(s, t, row).tx;
    assert View(s, y) == View(s, x);
    assert WritesOk(s, y) && CheckWritesOk(s, y);
  }

  lemma StartScanMove(s: Sys, t: Id, row: Id)
    requires t in s.txs && TxOk(s, s.txs[t]) && s.txs[t].pc.StartScan? && Work(s, t, row).Go?
    ensures TxOk(s, Work(s, t, row).tx)
  {
    assert View(s, Work(s, t, row).tx) == View(s, s.txs[t]);
  }

  lemma StartMove(s: Sys, t: Id, row: Id)
    requires t in s.txs && TxOk(s, s.txs[t]) && s.txs[t].pc.Starting? && Work(s, t, row).Go?
    ensures TxOk(s, Work(s, t, row).tx)
  {
    var x := s.txs[t];
    var y := Work(s, t, row).tx;
    SameRunWritesOk(s, x, y);
    if row in x.pc.checks {
      StartWritesOk(s, x, y, row);
      StartedMore(s, x, y, row);
    }
  }

  /** Neither written run nor lock changes. */
  lemma SameRunWritesOk(s: Sys, x: Tx, y: Tx)
    requires WritesOk(s, x) && y.kind == x.kind && y.runLocks == x.runLocks && y.runW == x.runW && !x.kind.Creating?
    ensures WritesOk(s, y) && View(s, y) == View(s, x)
  {
  }

  lemma StartWritesOk(s: Sys, x: Tx, y: Tx, row: Id)
    requires CheckWritesOk(s, x) && View(s, y) == View(s, x)
    requires y.checkW == x.checkW || (row in s.checks && s.checks[row].status.Pending? && y.checkW == x.checkW[row := Running])
    ensures CheckWritesOk(s, y)
  {
  }

  lemma StartedMore(s: Sys, x: Tx, y: Tx, row: Id)
    requires x.pc.Starting? && Started(s, x, x.pc.checks) && y.runW == x.runW && x.checkW.Keys <= y.checkW.Keys
    requires row in y.checkW || row !in s.checks || !s.checks[row].status.Pending?
    ensures Started(s, y, x.pc.checks - {row})
  {
  }

  lemma DispatchMove(s: Sys, t: Id, row: Id)
    requires TablesOk(s) && t in s.txs && TxOk(s, s.txs[t]) && s.txs[t].pc.Dispatching?
    ensures Work(s, t, row).Go? && TxOk(s, Work(s, t, row).tx)
  {
    var x := s.txs[t];
    var y := Work(s, t, row).tx;
    assert TxOk(s, x);
    DispatchWritesOk(s, x, y);
    DispatchChecksOk(s, x, y);
  }

  lemma DispatchWritesOk(s: Sys, x: Tx, y: Tx)
    requires WritesOk(s, x) && x.kind.Claiming? && y.kind == x.kind && y.runLocks == x.runLocks
    requires y.runW == HandedOut(s, x)
    ensures WritesOk(s, y) && y.runW.Keys == y.runLocks
  {
  }

  /** Only queued runs are dispatched, so a check seen quiet stays so. */
  lemma DispatchChecksOk(s: Sys, x: Tx, y: Tx)
    requires WritesOk(s, x) && CheckWritesOk(s, x) && x.kind.Claiming? && x.runW == map[] && y.checkW == x.checkW
    requires y.runW == HandedOut(s, x)
    ensures CheckWritesOk(s, y)
  {
    forall c | c in y.checkW && Settled(y.checkW[c]) ensures NoActive(View(s, y), c) {
      assert View(s, x) == s.runs && NoActive(View(s, x), c);
    }
  }

  lemma CancelMove(s: Sys, t: Id, row: Id)
    requires TablesOk(s) && t in s.txs && TxOk(s, s.txs[t]) && (s.txs[t].pc.CancelMark? || s.txs[t].pc.CancelScan? || s.txs[t].pc.CancelRuns?) && Work(s, t, row).Go?
    ensures TxOk(s, Work(s, t, row).tx)
  {
    var x := s.txs[t];
    var y := Work(s, t, row).tx;
    assert TxOk(s, x);
    if x.pc.CancelRuns? && row in x.pc.rows && Active(s.runs[row].status) {
      EndRunOk(s, x, row, Errored, CancelRuns(x.pc.rows - {row}));
    } else {
      SameRunWritesOk(s, x, y);
      CancelWritesOk(s, x, y);
    }
  }

  lemma CancelWritesOk(s: Sys, x: Tx, y: Tx)
    requires CheckWritesOk(s, x) && View(s, y) == View(s, x)
    requires y.checkW == x.checkW || (x.kind.Cancelling? && x.kind.check in s.checks && Open(s.checks[x.kind.check].status)
                                      && y.checkW == x.checkW[x.kind.check := Cancelled])
    ensures CheckWritesOk(s, y)
  {
  }

  lemma InsertMove(s: Sys, t: Id, row: Id)
    requires t in s.txs && TxOk(s, s.txs[t]) && s.txs[t].pc.Inserting? && Work(s, t, row).Go?
    ensures TxOk(s, Work(s, t, row).tx)
  {
    var x := s.txs[t];
    var y := Work(s, t, row).tx;
    assert y.checkW == map[];
    assert WritesOk(s, y) && PcOk(s, y);
  }

  lemma WorkKeepsTx(s: Sys, t: Id, row: Id)
    requires TablesOk(s) && t in s.txs && TxOk(s, s.txs[t]) && Work(s, t, row).Go?
    ensures TxOk(s, Work(s, t, row).tx)
  {
    match s.txs[t].pc
    case MarkRun(_, _, _) => CompleteMove(s, t, row);
    case Expiring(_, _) => SweepMove(s, t, row);
    case Counting(_) => CountMove(s, t, row);
    case Settling(_, _, _) => SettleMove(s, t, row);
    case Selecting(_, _) => SelectMove(s, t, row);
    case Dispatching => DispatchMove(s, t, row);
    case StartScan => StartScanMove(s, t, row);
    case Starting(_) => StartMove(s, t, row);
    case CancelMark(_) => CancelMove(s, t, row);
    case CancelScan => CancelMove(s, t, row);
    case CancelRuns(_) => CancelMove(s, t, row);
    case Inserting(_) => InsertMove(s, t, row);
    case Ready =>
  }

  /** A move takes no lock another transaction holds. */
  predicate NewLocksFree(s: Sys, t: Id, x: Tx, y: Tx) {
    && y.kind == x.kind
    && (forall r :: r in y.runLocks && r !in x.runLocks ==> RunFree(s, t, r))
    && (forall c :: c in y.checkW && c !in x.checkW ==> CheckFree(s, t, c))
  }

  lemma WorkTakesFreeLocks(s: Sys, t: Id, row: Id)
    requires t in s.txs && Work(s, t, row).Go?
    ensures NewLocksFree(s, t, s.txs[t], Work(s, t, row).tx)
  {
    WorkTakesFreeRuns(s, t, row);
  }

  lemma WorkTakesFreeRuns(s: Sys, t: Id, row: Id)
    requires t in s.txs && Work(s, t, row).Go?
    ensures var x, y := s.txs[t], Work(s, t, row).tx;
            y.kind == x.kind && forall r :: r in y.runLocks && r !in x.runLocks ==> RunFree(s, t, r)
  {
  }

  lemma WorkStaysApart(s: Sys, t: Id, y: Tx, u: Id)
    requires t in s.txs && u in s.txs && t != u && Apart(s.txs[t], s.txs[u]) && NewLocksFree(s, t, s.txs[t], y)
    ensures Apart(y, s.txs[u]) && Apart(s.txs[u], y)
  {
  }

  // ---- commits ----

  function AfterCommit(s: Sys, x: Tx): Sys {
    s.(checks := Committed(s, x), runs := View(s, x))
  }

  lemma CommitKeepsRows(s: Sys, x: Tx, c: Id)
    requires WritesOk(s, x)
    ensures HasRun(s.runs, c) ==> HasRun(View(s, x), c)
  {
    if HasRun(s.runs, c) {
      var r :| r in s.runs && s.runs[r].checkId == c;
      assert r in View(s, x) && View(s, x)[r].checkId == c;
    }
  }

  /** Once a transaction sees no active run of a check that has runs, no other commit changes that. */
  lemma QuietStaysQuiet(s: Sys, x: Tx, y: Tx, c: Id)
    requires WritesOk(s, x) && WritesOk(s, y) && Apart(x, y)
    requires HasRun(s.runs, c) && NoActive(View(s, y), c)
    ensures NoActive(View(AfterCommit(s, x), y), c)
  {
  }

  lemma CommitKeepsWrites(s: Sys, x: Tx, y: Tx)
    requires TablesOk(s) && TxOk(s, x) && TxOk(s, y) && Apart(x, y)
    ensures WritesOk(AfterCommit(s, x), y)
  {
    CommitKeepsUnbegun(s, x, y);
  }

  lemma CommitKeepsUnbegun(s: Sys, x: Tx, y: Tx)
    requires WritesOk(s, x) && WritesOk(s, y) && Apart(x, y)
    ensures y.kind.Creating? ==> !HasRun(View(s, x), y.kind.check)
  {
    if y.kind.Creating? {
      forall r | r in View(s, x) ensures View(s, x)[r].checkId != y.kind.check {
        if r in s.runs { assert s.runs[r].checkId != y.kind.check; }
      }
    }
  }

  lemma CommitKeepsCheckWrites(s: Sys, x: Tx, y: Tx)
    requires TablesOk(s) && TxOk(s, x) && TxOk(s, y) && Apart(x, y)
    ensures CheckWritesOk(AfterCommit(s, x), y)
  {
    var s' := AfterCommit(s, x);
    forall c | c in y.checkW
      ensures c in s'.checks && s'.checks[c] == s.checks[c]
      ensures Settled(y.checkW[c]) ==> HasRun(s'.runs, c) && NoActive(View(s', y), c)
    {
      assert c !in x.checkW.Keys;
      if Settled(y.checkW[c]) {
        CommitKeepsRows(s, x, c);
        QuietStaysQuiet(s, x, y, c);
      }
    }
  }

  lemma CommitKeepsPc(s: Sys, x: Tx, y: Tx)
    requires WritesOk(s, x) && CheckWritesOk(s, x) && WritesOk(s, y) && PcOk(s, y) && Apart(x, y)
    ensures PcOk(AfterCommit(s, x), y)
  {
    var s' := AfterCommit(s, x);
    forall c | HasRun(s.runs, c) ensures HasRun(s'.runs, c) {
      CommitKeepsRows(s, x, c);
    }
    match y.pc
    case Settling(c, _, _) => QuietStaysQuiet(s, x, y, c);
    case Starting(checks) => CommitKeepsStarted(s, x, y, checks);
    case Ready => if y.kind.Claiming? { CommitKeepsStarted(s, x, y, {}); }
    case _ =>
  }

  /** No commit makes a check pending again. */
  lemma CommitKeepsStarted(s: Sys, x: Tx, y: Tx, left: set<Id>)
    requires CheckWritesOk(s, x) && Started(s, y, left)
    ensures Started(AfterCommit(s, x), y, left)
  {
  }

  /** A commit puts a run out with a node only together with its check's start. */
  lemma CommitStartsChecks(s: Sys, x: Tx)
    requires TablesOk(s) && TxOk(s, x) && x.pc.Ready?
    ensures Lifecycle.NotPendingOnceClaimed(Committed(s, x), View(s, x))
  {
    var checks, runs := Committed(s, x), View(s, x);
    forall r | r in runs && runs[r].status.Dispatched? && runs[r].checkId in checks ensures !checks[runs[r].checkId].status.Pending? {
      if r in x.runW { assert x.kind.Claiming? && Started(s, x, {}); }
    }
  }

  lemma CommitKeepsTables(s: Sys, x: Tx)
    requires TablesOk(s) && TxOk(s, x) && x.pc.Ready?
    ensures TablesOk(AfterCommit(s, x))
  {
    CommitStartsChecks(s, x);
    var s' := AfterCommit(s, x);
    forall c | c in s'.checks && Settled(s'.checks[c].status) ensures HasRun(s'.runs, c) && NoActive(s'.runs, c) {
      if c in x.checkW {
        CommitKeepsRows(s, x, c);
      } else {
        assert HasRun(s.runs, c) && NoActive(s.runs, c);
        CommitKeepsRows(s, x, c);
      }
    }
  }

  lemma CommitKeepsHandouts(s: Sys, t: Id)
    requires Inv(s) && t in s.txs && s.txs[t].pc.Ready?
    ensures HandoutsOk(Do(s, Commit(t)))
  {
    assert TxOk(s, s.txs[t]);
    LogKept(s, t);
  }

  lemma LogKept(s: Sys, t: Id)
    requires HandoutsOk(s) && t in s.txs && s.txs[t].pc.Ready? && WritesOk(s, s.txs[t]) && PcOk(s, s.txs[t])
    ensures HandoutsOk(Do(s, Commit(t)))
  {
    var x := s.txs[t];
    if x.kind.Claiming? {
      NewHandoutOk(s, x);
      HandoutsLocal(AfterCommit(s, x).(handouts := s.handouts + [Handout(x.kind.node, x.runLocks)]), Do(s, Commit(t)));
    } else {
      OldHandoutsStay(s, x);
      HandoutsLocal(AfterCommit(s, x), Do(s, Commit(t)));
    }
  }

  lemma HandoutsLocal(s: Sys, s': Sys)
    requires HandoutsOk(s) && s'.runs == s.runs && s'.handouts == s.handouts
    ensures HandoutsOk(s')
  {
  }

  lemma OldHandoutsStay(s: Sys, x: Tx)
    requires HandoutsOk(s) && WritesOk(s, x)
    ensures HandoutsOk(AfterCommit(s, x))
  {
  }

  /** What the claim hands out was queued until now, so no earlier claim had it. */
  lemma NewHandoutOk(s: Sys, x: Tx)
    requires HandoutsOk(s) && WritesOk(s, x) && x.kind.Claiming? && x.runLocks == x.runW.Keys
    ensures HandoutsOk(AfterCommit(s, x).(handouts := s.handouts + [Handout(x.kind.node, x.runLocks)]))
  {
    var after := AfterCommit(s, x).(handouts := s.handouts + [Handout(x.kind.node, x.runLocks)]);
    OldHandoutsStay(s, x);
    forall r | r in x.runLocks ensures r in after.runs && !after.runs[r].status.Queued? && after.runs[r].nodeId == x.kind.node {
      assert s.runs[r].nodeId == x.kind.node;
    }
    forall i | 0 <= i < |s.handouts| ensures s.handouts[i].runs !! x.runLocks {
      forall r | r in x.runLocks ensures r !in s.handouts[i].runs {
        assert s.runs[r].status.Queued?;
      }
    }
  }

  lemma CommitKeepsInv(s: Sys, t: Id)
    requires Inv(s) && t in s.txs && s.txs[t].pc.Ready?
    ensures Inv(Do(s, Commit(t)))
  {
    var x := s.txs[t];
    var s' := Do(s, Commit(t));
    CommitKeepsHandouts(s, t);
    CommitKeepsTables(s, x);
    forall u | u in s'.txs ensures TxOk(s', s'.txs[u]) {
      assert Apart(x, s.txs[u]);
      CommitKeepsWrites(s, x, s.txs[u]);
      CommitKeepsCheckWrites(s, x, s.txs[u]);
      CommitKeepsPc(s, x, s.txs[u]);
      TxOkLocal(AfterCommit(s, x), s', s.txs[u]);
    }
  }

  /** A transaction's obligations depend on the committed tables alone. */
  lemma TxOkLocal(s: Sys, s': Sys, x: Tx)
    requires s.checks == s'.checks && s.runs == s'.runs && s.begun == s'.begun
    ensures TxOk(s, x) == TxOk(s', x)
  {
    assert View(s, x) == View(s', x);
  }

  lemma MoveKeepsInv(s: Sys, t: Id, row: Id)
    requires Inv(s) && Enabled(s, Move(t, row))
    ensures Inv(Do(s, Move(t, row)))
  {
    if Work(s, t, row).Go? {
      assert TxOk(s, s.txs[t]);
      WorkKeepsTx(s, t, row);
      WorkTakesFreeLocks(s, t, row);
      ReplaceKeepsInv(s, t, Work(s, t, row).tx);
    } else {
      DropKeepsInv(s, t);
    }
  }

  lemma ReplaceKeepsInv(s: Sys, t: Id, y: Tx)
    requires Inv(s) && t in s.txs && TxOk(s, y) && NewLocksFree(s, t, s.txs[t], y)
    ensures Inv(Begin(s, t, y))
  {
    BeginKeepsTxs(s, t, y);
    forall u | u in s.txs && u != t ensures Apart(y, s.txs[u]) && Apart(s.txs[u], y) {
      WorkStaysApart(s, t, y, u);
    }
  }

  lemma BeginKeepsInv(s: Sys, t: Id, x: Tx)
    requires Inv(s) && t !in s.txs && x.runLocks == {} && x.checkW == map[]
    requires TxOk(s, x) && forall u :: u in s.txs ==> Apart(x, s.txs[u])
    ensures Inv(Begin(s, t, x))
  {
    var s' := Begin(s, t, x);
    assert TablesOk(s') && HandoutsOk(s');
    BeginKeepsTxs(s, t, x);
    forall u, v | u in s'.txs && v in s'.txs && u != v ensures Apart(s'.txs[u], s'.txs[v]) {
      if v == t { assert Apart(x, s.txs[u]); }
    }
  }

  lemma BeginKeepsTxs(s: Sys, t: Id, x: Tx)
    requires TxOk(s, x) && forall u :: u in s.txs && u != t ==> TxOk(s, s.txs[u])
    ensures var s' := Begin(s, t, x); forall u :: u in s'.txs ==> TxOk(s', s'.txs[u])
  {
    var s' := Begin(s, t, x);
    forall u | u in s'.txs ensures TxOk(s', s'.txs[u]) {
      TxOkLocal(s, s', s'.txs[u]);
    }
  }

  lemma BeginPlainKeepsInv(s: Sys, a: Action)
    requires Inv(s) && Enabled(s, a) && (a.BeginComplete? || a.BeginSweep? || a.BeginClaim? || a.BeginCancel?)
    ensures Inv(Do(s, a))
  {
    var x := Do(s, a).txs[a.t];
    FreshOk(s, x);
    assert forall u :: u in s.txs ==> Apart(x, s.txs[u]);
    BeginKeepsInv(s, a.t, x);
  }

  lemma FreshOk(s: Sys, x: Tx)
    requires x == Fresh(x.kind, x.pc) && !x.kind.Creating? && PcOk(s, x)
    ensures TxOk(s, x)
  {
  }

  lemma DropKeepsInv(s: Sys, t: Id)
    requires Inv(s)
    ensures Inv(s.(txs := s.txs - {t}))
  {
    var s' := s.(txs := s.txs - {t});
    forall u | u in s'.txs ensures TxOk(s', s'.txs[u]) {
      TxOkLocal(s, s', s'.txs[u]);
    }
  }

  lemma BeginCreateKeepsInv(s: Sys, a: Action)
    requires Inv(s) && Enabled(s, a) && a.BeginCreate?
    ensures Inv(Do(s, a))
  {
    var s1 := s.(begun := s.begun + {a.check});
    forall u | u in s.txs ensures TxOk(s1, s.txs[u]) && Apart(Fresh(Creating(a.check), Inserting(a.rows)), s.txs[u]) {
      assert TxOk(s, s.txs[u]) && View(s1, s.txs[u]) == View(s, s.txs[u]);
    }
    assert !HasRun(s.runs, a.check);
    assert TxOk(s1, Fresh(Creating(a.check), Inserting(a.rows)));
    BeginKeepsInv(s1, a.t, Fresh(Creating(a.check), Inserting(a.rows)));
    assert Do(s, a) == Begin(s1, a.t, Fresh(Creating(a.check), Inserting(a.rows)));
  }

  lemma AddCheckKeepsInv(s: Sys, a: Action)
    requires Inv(s) && Enabled(s, a) && a.AddCheck?
    ensures Inv(Do(s, a))
  {
    var s' := Do(s, a);
    forall u | u in s'.txs ensures TxOk(s', s'.txs[u]) {
      assert TxOk(s, s.txs[u]);
      MoreChecksKeepTx(s, s', s.txs[u]);
    }
  }

  lemma MoreChecksKeepTx(s: Sys, s': Sys, x: Tx)
    requires TxOk(s, x) && s'.runs == s.runs && s'.begun == s.begun
    requires forall c :: c in s.checks ==> c in s'.checks && s'.checks[c] == s.checks[c]
    requires forall r :: r in x.runW ==> x.runW[r].checkId in s.checks
    ensures TxOk(s', x)
  {
    assert View(s', x) == View(s, x);
  }

  lemma StepKeepsInv(s: Sys, a: Action)
    requires Inv(s) && Enabled(s, a)
    ensures Inv(Do(s, a))
  {
    match a
    case AddCheck(_, _, _) => AddCheckKeepsInv(s, a);
    case BeginCreate(_, _, _) => BeginCreateKeepsInv(s, a);
    case Move(t, row) => MoveKeepsInv(s, t, row);
    case Commit(t) => CommitKeepsInv(s, t);
    case Abort(t) => DropKeepsInv(s, t);
    case _ => BeginPlainKeepsInv(s, a);
  }
}
