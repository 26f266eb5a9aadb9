/** What interleaved completions can do to a check with more than one run: leave it open with all
    runs over, or settle it with a verdict its runs no longer bear out. */
module Races {
  import opened Records
  import opened Interleaving
  import opened Aggregation
  import opened Guarantees

  ghost predicate Path(states: seq<Sys>, acts: seq<Action>) {
    && |states| == |acts| + 1
    && forall i {:trigger acts[i]} :: 0 <= i < |acts| ==> Steps(states[i], acts[i], states[i + 1])
  }

  lemma Extend(states: seq<Sys>, acts: seq<Action>, a: Action, s: Sys) returns (more: seq<Sys>, next: seq<Action>)
    requires Path(states, acts) && Steps(states[|acts|], a, s)
    ensures more == states + [s] && next == acts + [a] && Path(more, next) && more[|next|] == s
  {
    more, next := states + [s], acts + [a];
    forall i | 0 <= i < |next| ensures Steps(more[i], next[i], more[i + 1]) {
      if i < |acts| { var b := acts[i]; }
    }
  }

  lemma PathsJoin(p: seq<Sys>, a: seq<Action>, q: seq<Sys>, b: seq<Action>)
    requires Path(p, a) && Path(q, b) && p[|a|] == q[0]
    ensures Path(p + q[1..], a + b)
  {
    var states, acts := p + q[1..], a + b;
    forall i | 0 <= i < |acts| ensures Steps(states[i], acts[i], states[i + 1]) {
      if i < |a| {
        var first := a[i];
      } else {
        var second := b[i - |a|];
        assert states[i] == q[i - |a|] && states[i + 1] == q[i - |a| + 1];
      }
    }
  }

  function Ended(run: Run, ok: bool): Run {
    run.(status := if ok then Done else Errored)
  }

  function Marked(r: Id, run: Run, ok: bool, pc: Pc, counted: set<Id>): Tx {
    Tx(Completing, pc, {r}, map[r := Ended(run, ok)], map[], counted)
  }

  function Two(s: Sys, x: Tx, y: Tx): Sys {
    s.(txs := map[0 := x, 1 := y])
  }

  predicate Steps(s: Sys, a: Action, s': Sys) {
    Enabled(s, a) && Do(s, a) == s'
  }

  function One(s: Sys, x: Tx): Sys {
    s.(txs := map[0 := x])
  }

  predicate Belongs(s: Sys, c: Id, r: Id) {
    r in s.runs && s.runs[r].checkId == c
  }

  // ---- single steps ----

  lemma Moves(s: Sys, t: Id, row: Id, y: Tx)
    requires t in s.txs && Work(s, t, row) == Go(y)
    ensures Steps(s, Move(t, row), s.(txs := s.txs[t := y]))
  {
  }

  lemma MarksOwnRun(s: Sys, t: Id, r: Id, ok: bool)
    requires r in s.runs && t in s.txs && s.txs[t] == Fresh(Completing, MarkRun(r, s.runs[r].nodeId, ok)) && RunFree(s, t, r)
    ensures Work(s, t, r) == Go(Marked(r, s.runs[r], ok, Counting({s.runs[r].checkId}), {}))
  {
  }

  lemma SeesOwnRun(s: Sys, t: Id, r: Id, run: Run, ok: bool, pc: Pc, counted: set<Id>)
    requires t in s.txs && s.txs[t] == Marked(r, run, ok, pc, counted)
    ensures View(s, s.txs[t]) == s.runs[r := Ended(run, ok)]
  {
  }

  /** Counting while some run is still active: nothing to settle. */
  lemma CountsOpen(s: Sys, t: Id, c: Id, r: Id, run: Run, ok: bool)
    requires t in s.txs && s.txs[t] == Marked(r, run, ok, Counting({c}), {})
    requires !NoActive(s.runs[r := Ended(run, ok)], c)
    ensures Work(s, t, c) == Go(Marked(r, run, ok, Counting({}), {c}))
  {
    SeesOwnRun(s, t, r, run, ok, Counting({c}), {});
    assert {c} - {c} == {} && {} + {c} == {c};
  }

  /** Counting when all runs look over: on to settling. */
  lemma CountsQuiet(s: Sys, t: Id, c: Id, r: Id, run: Run, ok: bool)
    requires t in s.txs && s.txs[t] == Marked(r, run, ok, Counting({c}), {})
    requires NoActive(s.runs[r := Ended(run, ok)], c)
    ensures Work(s, t, c) == Go(Marked(r, run, ok, Settling(c, Verdict(s.runs[r := Ended(run, ok)], c), {}), {c}))
  {
    SeesOwnRun(s, t, r, run, ok, Counting({c}), {});
    assert {c} - {c} == {} && {} + {c} == {c};
  }

  function Wrote(r: Id, run: Run, ok: bool, pc: Pc, c: Id, verdict: CheckStatus): Tx {
    Tx(Completing, pc, {r}, map[r := Ended(run, ok)], map[c := verdict], {c})
  }

  lemma Settles(s: Sys, t: Id, c: Id, r: Id, run: Run, ok: bool, verdict: CheckStatus, row: Id)
    requires t in s.txs && s.txs[t] == Marked(r, run, ok, Settling(c, verdict, {}), {c})
    requires CheckFree(s, t, c) && c in s.checks && !s.checks[c].status.Cancelled?
    ensures Work(s, t, row) == Go(Wrote(r, run, ok, Counting({}), c, verdict))
  {
    assert map[][c := verdict] == map[c := verdict];
  }

  lemma GetsReady(s: Sys, t: Id, row: Id)
    requires t in s.txs && s.txs[t].pc == Counting({})
    ensures Work(s, t, row) == Go(s.txs[t].(pc := Ready))
  {
  }

  lemma CommitOne(s: Sys, t: Id, r: Id, run: Run, ok: bool, counted: set<Id>)
    requires t in s.txs && s.txs[t] == Marked(r, run, ok, Ready, counted)
    ensures Steps(s, Commit(t), s.(runs := s.runs[r := Ended(run, ok)], txs := s.txs - {t}))
  {
    SeesOwnRun(s, t, r, run, ok, Ready, counted);
    assert Committed(s, s.txs[t]) == s.checks;
  }

  function Settle(s: Sys, c: Id, verdict: CheckStatus): map<Id, Check>
    requires c in s.checks
  {
    s.checks[c := s.checks[c].(status := verdict)]
  }

  lemma CommitWrote(s: Sys, t: Id, r: Id, run: Run, ok: bool, c: Id, verdict: CheckStatus)
    requires t in s.txs && s.txs[t] == Wrote(r, run, ok, Ready, c, verdict) && c in s.checks
    ensures Steps(s, Commit(t), s.(checks := Settle(s, c, verdict), runs := s.runs[r := Ended(run, ok)], txs := s.txs - {t}))
  {
    assert Committed(s, s.txs[t]) == Settle(s, c, verdict);
    assert View(s, s.txs[t]) == s.runs[r := Ended(run, ok)];
  }

  // ---- a completion on its own ----

  /** What a completion that runs alone leaves behind. */
  function AfterReport(s: Sys, o: Id, ok: bool): Sys
    requires o in s.runs && s.runs[o].checkId in s.checks
  {
    var c, runs := s.runs[o].checkId, s.runs[o := Ended(s.runs[o], ok)];
    if NoActive(runs, c) then s.(checks := Settle(s, c, Verdict(runs, c)), runs := runs) else s.(runs := runs)
  }

  lemma CompletionMarks(s: Sys, o: Id, ok: bool) returns (states: seq<Sys>, acts: seq<Action>)
    requires s.txs == map[] && o in s.runs
    ensures Path(states, acts) && states[0] == s
    ensures states[|acts|] == One(s, Marked(o, s.runs[o], ok, Counting({s.runs[o].checkId}), {}))
  {
    var R := s.runs[o];
    var x := Fresh(Completing, MarkRun(o, R.nodeId, ok));
    states, acts := Extend([s], [], BeginComplete(0, o, R.nodeId, ok), One(s, x));
    MarksOwnRun(One(s, x), 0, o, ok);
    var y := Marked(o, R, ok, Counting({R.checkId}), {});
    Moves(One(s, x), 0, o, y);
    assert One(s, x).txs[0 := y] == One(s, y).txs;
    states, acts := Extend(states, acts, Move(0, o), One(s, y));
  }

  lemma CompletionOpen(s: Sys, c: Id, o: Id, ok: bool) returns (states: seq<Sys>, acts: seq<Action>)
    requires s.txs == map[] && Belongs(s, c, o) && !NoActive(s.runs[o := Ended(s.runs[o], ok)], c)
    ensures Path(states, acts) && states[0] == One(s, Marked(o, s.runs[o], ok, Counting({c}), {}))
    ensures states[|acts|] == s.(runs := s.runs[o := Ended(s.runs[o], ok)])
  {
    var R := s.runs[o];
    var x1, x2 := Marked(o, R, ok, Counting({c}), {}), Marked(o, R, ok, Counting({}), {c});
    var x3 := x2.(pc := Ready);
    CountsOpen(One(s, x1), 0, c, o, R, ok);
    Moves(One(s, x1), 0, c, x2);
    assert One(s, x1).txs[0 := x2] == One(s, x2).txs;
    states, acts := Extend([One(s, x1)], [], Move(0, c), One(s, x2));
    GetsReady(One(s, x2), 0, c);
    Moves(One(s, x2), 0, c, x3);
    assert One(s, x2).txs[0 := x3] == One(s, x3).txs;
    states, acts := Extend(states, acts, Move(0, c), One(s, x3));
    CommitOne(One(s, x3), 0, o, R, ok, {c});
    assert One(s, x3).txs - {0} == s.txs;
    states, acts := Extend(states, acts, Commit(0), s.(runs := s.runs[o := Ended(R, ok)]));
  }

  /** From settling on: write, get ready, commit. */
  lemma SettlesAndCommits(s: Sys, c: Id, o: Id, R: Run, ok: bool, verdict: CheckStatus) returns (states: seq<Sys>, acts: seq<Action>)
    requires s.txs == map[] && c in s.checks && !s.checks[c].status.Cancelled?
    ensures Path(states, acts) && states[0] == One(s, Marked(o, R, ok, Settling(c, verdict, {}), {c}))
    ensures states[|acts|] == s.(checks := Settle(s, c, verdict), runs := s.runs[o := Ended(R, ok)])
  {
    var x2 := Marked(o, R, ok, Settling(c, verdict, {}), {c});
    var x3, x4 := Wrote(o, R, ok, Counting({}), c, verdict), Wrote(o, R, ok, Ready, c, verdict);
    Settles(One(s, x2), 0, c, o, R, ok, verdict, c);
    Moves(One(s, x2), 0, c, x3);
    assert One(s, x2).txs[0 := x3] == One(s, x3).txs;
    states, acts := Extend([One(s, x2)], [], Move(0, c), One(s, x3));
    GetsReady(One(s, x3), 0, c);
    Moves(One(s, x3), 0, c, x4);
    assert One(s, x3).txs[0 := x4] == One(s, x4).txs;
    states, acts := Extend(states, acts, Move(0, c), One(s, x4));
    CommitWrote(One(s, x4), 0, o, R, ok, c, verdict);
    assert One(s, x4).txs - {0} == s.txs;
    states, acts := Extend(states, acts, Commit(0), s.(checks := Settle(s, c, verdict), runs := s.runs[o := Ended(R, ok)]));
  }

  lemma CompletionQuiet(s: Sys, c: Id, o: Id, ok: bool) returns (states: seq<Sys>, acts: seq<Action>)
    requires s.txs == map[] && Belongs(s, c, o) && NoActive(s.runs[o := Ended(s.runs[o], ok)], c)
    requires c in s.checks && !s.checks[c].status.Cancelled?
    ensures Path(states, acts) && states[0] == One(s, Marked(o, s.runs[o], ok, Counting({c}), {}))
    ensures states[|acts|] == AfterReport(s, o, ok)
  {
    var R := s.runs[o];
    var verdict := Verdict(s.runs[o := Ended(R, ok)], c);
    var x1, x2 := Marked(o, R, ok, Counting({c}), {}), Marked(o, R, ok, Settling(c, verdict, {}), {c});
    CountsQuiet(One(s, x1), 0, c, o, R, ok);
    Moves(One(s, x1), 0, c, x2);
    assert One(s, x1).txs[0 := x2] == One(s, x2).txs;
    var first, a := Extend([One(s, x1)], [], Move(0, c), One(s, x2));
    var rest, b := SettlesAndCommits(s, c, o, R, ok, verdict);
    PathsJoin(first, a, rest, b);
    states, acts := first + rest[1..], a + b;
  }

  /** A node may report any of its runs at any time; alone, that has the serial effect. */
  lemma CompleteAlone(s: Sys, c: Id, o: Id, ok: bool) returns (states: seq<Sys>, acts: seq<Action>)
    requires s.txs == map[] && Belongs(s, c, o) && c in s.checks && !s.checks[c].status.Cancelled?
    ensures Path(states, acts) && states[0] == s && states[|acts|] == AfterReport(s, o, ok)
  {
    var first, a := CompletionMarks(s, o, ok);
    var rest, b;
    if NoActive(s.runs[o := Ended(s.runs[o], ok)], c) {
      rest, b := CompletionQuiet(s, c, o, ok);
    } else {
      rest, b := CompletionOpen(s, c, o, ok);
    }
    PathsJoin(first, a, rest, b);
    states, acts := first + rest[1..], a + b;
  }

  // ---- two completions at once ----

  lemma RaceBegins(s: Sys, r: Id, q: Id, R: Run, Q: Run, okR: bool, okQ: bool)
    requires s.txs == map[]
    ensures var x := Fresh(Completing, MarkRun(r, R.nodeId, okR));
            var y := Fresh(Completing, MarkRun(q, Q.nodeId, okQ));
            && Steps(s, BeginComplete(0, r, R.nodeId, okR), s.(txs := map[0 := x]))
            && Steps(s.(txs := map[0 := x]), BeginComplete(1, q, Q.nodeId, okQ), Two(s, x, y))
  {
  }

  /** Both have written their own run, neither has counted. */
  lemma BothMark(s: Sys, c: Id, r: Id, q: Id, ok: bool) returns (states: seq<Sys>, acts: seq<Action>)
    requires s.txs == map[] && Belongs(s, c, r) && Belongs(s, c, q) && r != q
    ensures Path(states, acts) && states[0] == s
    ensures states[|acts|] == Two(s, Marked(r, s.runs[r], ok, Counting({c}), {}), Marked(q, s.runs[q], ok, Counting({c}), {}))
  {
    var R, Q := s.runs[r], s.runs[q];
    var x, y := Fresh(Completing, MarkRun(r, R.nodeId, ok)), Fresh(Completing, MarkRun(q, Q.nodeId, ok));
    var x', y' := Marked(r, R, ok, Counting({c}), {}), Marked(q, Q, ok, Counting({c}), {});
    RaceBegins(s, r, q, R, Q, ok, ok);
    states, acts := Extend([s], [], BeginComplete(0, r, R.nodeId, ok), One(s, x));
    states, acts := Extend(states, acts, BeginComplete(1, q, Q.nodeId, ok), Two(s, x, y));
    MarksOwnRun(Two(s, x, y), 0, r, ok);
    FirstMoves(s, x, y, r, x');
    states, acts := Extend(states, acts, Move(0, r), Two(s, x', y));
    MarksOwnRun(Two(s, x', y), 1, q, ok);
    SecondMoves(s, x', y, q, y');
    states, acts := Extend(states, acts, Move(1, q), Two(s, x', y'));
  }

  lemma FirstMoves(s: Sys, x: Tx, y: Tx, row: Id, x': Tx)
    requires Work(Two(s, x, y), 0, row) == Go(x')
    ensures Steps(Two(s, x, y), Move(0, row), Two(s, x', y))
  {
    Moves(Two(s, x, y), 0, row, x');
    assert Two(s, x, y).txs[0 := x'] == Two(s, x', y).txs;
  }

  lemma SecondMoves(s: Sys, x: Tx, y: Tx, row: Id, y': Tx)
    requires Work(Two(s, x, y), 1, row) == Go(y')
    ensures Steps(Two(s, x, y), Move(1, row), Two(s, x, y'))
  {
    Moves(Two(s, x, y), 1, row, y');
    assert Two(s, x, y).txs[1 := y'] == Two(s, x, y').txs;
  }

  // ---- stuck open ----

  /** The check is open and `r` and `q` are its only active runs. */
  predicate TwoLeft(s: Sys, c: Id, r: Id, q: Id) {
    && c in s.checks && Open(s.checks[c].status)
    && r != q && Belongs(s, c, r) && Belongs(s, c, q)
    && Active(s.runs[r].status) && Active(s.runs[q].status)
    && (forall k :: k in s.runs && s.runs[k].checkId == c && k != r && k != q ==> !Active(s.runs[k].status))
  }

  /** Both count, each seeing the other's run active, and get ready with nothing to settle. */
  lemma BothSeeOpen(s: Sys, c: Id, r: Id, q: Id, ok: bool) returns (states: seq<Sys>, acts: seq<Action>)
    requires s.txs == map[] && TwoLeft(s, c, r, q)
    ensures Path(states, acts)
    ensures states[0] == Two(s, Marked(r, s.runs[r], ok, Counting({c}), {}), Marked(q, s.runs[q], ok, Counting({c}), {}))
    ensures states[|acts|] == Two(s, Marked(r, s.runs[r], ok, Ready, {c}), Marked(q, s.runs[q], ok, Ready, {c}))
  {
    var R, Q := s.runs[r], s.runs[q];
    var x1, y1 := Marked(r, R, ok, Counting({c}), {}), Marked(q, Q, ok, Counting({c}), {});
    var x2, y2 := Marked(r, R, ok, Counting({}), {c}), Marked(q, Q, ok, Counting({}), {c});
    var x3, y3 := x2.(pc := Ready), y2.(pc := Ready);
    assert q in s.runs[r := Ended(R, ok)] && r in s.runs[q := Ended(Q, ok)];
    CountsOpen(Two(s, x1, y1), 0, c, r, R, ok);
    FirstMoves(s, x1, y1, c, x2);
    states, acts := Extend([Two(s, x1, y1)], [], Move(0, c), Two(s, x2, y1));
    CountsOpen(Two(s, x2, y1), 1, c, q, Q, ok);
    SecondMoves(s, x2, y1, c, y2);
    states, acts := Extend(states, acts, Move(1, c), Two(s, x2, y2));
    GetsReady(Two(s, x2, y2), 0, c);
    FirstMoves(s, x2, y2, c, x3);
    states, acts := Extend(states, acts, Move(0, c), Two(s, x3, y2));
    GetsReady(Two(s, x3, y2), 1, c);
    SecondMoves(s, x3, y2, c, y3);
    states, acts := Extend(states, acts, Move(1, c), Two(s, x3, y3));
  }

  lemma BothCommit(s: Sys, c: Id, r: Id, q: Id, R: Run, Q: Run, ok: bool) returns (states: seq<Sys>, acts: seq<Action>)
    requires s.txs == map[]
    ensures Path(states, acts) && states[0] == Two(s, Marked(r, R, ok, Ready, {c}), Marked(q, Q, ok, Ready, {c}))
    ensures states[|acts|] == s.(runs := s.runs[r := Ended(R, ok)][q := Ended(Q, ok)])
  {
    var x, y := Marked(r, R, ok, Ready, {c}), Marked(q, Q, ok, Ready, {c});
    var half := s.(runs := s.runs[r := Ended(R, ok)], txs := map[1 := y]);
    var end := s.(runs := s.runs[r := Ended(R, ok)][q := Ended(Q, ok)]);
    CommitOne(Two(s, x, y), 0, r, R, ok, {c});
    assert Two(s, x, y).txs - {0} == half.txs;
    states, acts := Extend([Two(s, x, y)], [], Commit(0), half);
    CommitOne(half, 1, q, Q, ok, {c});
    assert half.txs - {1} == end.txs;
    states, acts := Extend(states, acts, Commit(1), end);
  }

  /** All runs of the check are over and it is still open, with nothing in progress. */
  predicate StuckOpen(s: Sys, c: Id) {
    s.txs == map[] && c in s.checks && Open(s.checks[c].status) && HasRun(s.runs, c) && NoActive(s.runs, c)
  }

  ghost predicate CanStick(s: Sys, c: Id) {
    exists states, acts :: Sticking(s, c, states, acts)
  }

  ghost predicate Sticking(s: Sys, c: Id, states: seq<Sys>, acts: seq<Action>) {
    Path(states, acts) && states[0] == s && StuckOpen(states[|acts|], c)
  }

  /** With two active runs left, two completions can both commit without either settling the
      check: every run is over and the check stays open. */
  lemma LostFinalization(s: Sys, c: Id, r: Id, q: Id) returns (states: seq<Sys>, acts: seq<Action>)
    requires s.txs == map[] && TwoLeft(s, c, r, q)
    ensures Sticking(s, c, states, acts)
  {
    var p1, a1 := BothMark(s, c, r, q, true);
    var p2, a2 := BothSeeOpen(s, c, r, q, true);
    var p3, a3 := BothCommit(s, c, r, q, s.runs[r], s.runs[q], true);
    PathsJoin(p2, a2, p3, a3);
    PathsJoin(p1, a1, p2 + p3[1..], a2 + a3);
    states, acts := p1 + (p2 + p3[1..])[1..], a1 + (a2 + a3);
    var end := states[|acts|];
    assert end == p3[|a3|];
    assert r in end.runs && end.runs[r].checkId == c;
  }

  function Others(s: Sys, c: Id, r: Id, q: Id): set<Id> {
    set o | o in s.runs && s.runs[o].checkId == c && Active(s.runs[o].status) && o != r && o != q
  }

  /** The same from any number of active runs: the others complete one by one first. */
  lemma {:induction false} TwoActiveCanStick(s: Sys, c: Id, r: Id, q: Id)
    requires s.txs == map[] && c in s.checks && Open(s.checks[c].status) && r != q
    requires Belongs(s, c, r) && Active(s.runs[r].status) && Belongs(s, c, q) && Active(s.runs[q].status)
    ensures CanStick(s, c)
    decreases Others(s, c, r, q)
  {
    if o :| o in Others(s, c, r, q) {
      var s' := AfterReport(s, o, true);
      assert r in s.runs[o := Ended(s.runs[o], true)];
      assert s' == s.(runs := s.runs[o := Ended(s.runs[o], true)]);
      var first, a := CompleteAlone(s, c, o, true);
      assert Others(s', c, r, q) == Others(s, c, r, q) - {o};
      TwoActiveCanStick(s', c, r, q);
      var later, b :| Sticking(s', c, later, b);
      PathsJoin(first, a, later, b);
      assert Sticking(s, c, first + later[1..], a + b);
    } else {
      assert forall k :: k in s.runs && s.runs[k].checkId == c && k != r && k != q && Active(s.runs[k].status) ==> k in Others(s, c, r, q);
      var states, acts := LostFinalization(s, c, r, q);
    }
  }

  // ---- settled wrongly ----

  /** The runs of the check are `r` and `q`, which failed, and others that succeeded. */
  predicate TwoFailed(s: Sys, c: Id, r: Id, q: Id) {
    && r != q && Belongs(s, c, r) && Belongs(s, c, q) && s.runs[r].status.Errored? && s.runs[q].status.Errored?
    && (forall k :: k in s.runs && s.runs[k].checkId == c && k != r && k != q ==> s.runs[k].status.Done?)
  }

  /** With one of the two repaired, the verdict is partial. */
  lemma OneRepaired(s: Sys, c: Id, r: Id, q: Id)
    requires TwoFailed(s, c, r, q)
    ensures var runs := s.runs[r := Ended(s.runs[r], true)]; NoActive(runs, c) && Verdict(runs, c) == Partial
  {
    var runs := s.runs[r := Ended(s.runs[r], true)];
    assert q in runs && runs[q].checkId == c && runs[q].status.Errored?;
    assert r in runs && runs[r].checkId == c && runs[r].status.Done?;
  }

  /** Each counts its own repair and the other's failure, and means to write partial. */
  lemma BothSeePartial(s: Sys, c: Id, r: Id, q: Id) returns (states: seq<Sys>, acts: seq<Action>)
    requires s.txs == map[] && TwoFailed(s, c, r, q)
    ensures Path(states, acts)
    ensures states[0] == Two(s, Marked(r, s.runs[r], true, Counting({c}), {}), Marked(q, s.runs[q], true, Counting({c}), {}))
    ensures states[|acts|] == Two(s, Marked(r, s.runs[r], true, Settling(c, Partial, {}), {c}), Marked(q, s.runs[q], true, Settling(c, Partial, {}), {c}))
  {
    var R, Q := s.runs[r], s.runs[q];
    var x1, y1 := Marked(r, R, true, Counting({c}), {}), Marked(q, Q, true, Counting({c}), {});
    var x2, y2 := Marked(r, R, true, Settling(c, Partial, {}), {c}), Marked(q, Q, true, Settling(c, Partial, {}), {c});
    OneRepaired(s, c, r, q);
    CountsQuiet(Two(s, x1, y1), 0, c, r, R, true);
    FirstMoves(s, x1, y1, c, x2);
    states, acts := Extend([Two(s, x1, y1)], [], Move(0, c), Two(s, x2, y1));
    OneRepaired(s, c, q, r);
    CountsQuiet(Two(s, x2, y1), 1, c, q, Q, true);
    SecondMoves(s, x2, y1, c, y2);
    states, acts := Extend(states, acts, Move(1, c), Two(s, x2, y2));
  }

  function Alone1(s: Sys, y: Tx): Sys {
    s.(txs := map[1 := y])
  }

  /** The first writes and commits while the second waits for the check's row. */
  lemma FirstSettles(s: Sys, c: Id, r: Id, R: Run, y: Tx, verdict: CheckStatus) returns (states: seq<Sys>, acts: seq<Action>)
    requires c in s.checks && !s.checks[c].status.Cancelled? && c !in y.checkW
    ensures Path(states, acts) && states[0] == Two(s, Marked(r, R, true, Settling(c, verdict, {}), {c}), y)
    ensures states[|acts|] == Alone1(s.(checks := Settle(s, c, verdict), runs := s.runs[r := Ended(R, true)]), y)
  {
    var x2 := Marked(r, R, true, Settling(c, verdict, {}), {c});
    var x3, x4 := Wrote(r, R, true, Counting({}), c, verdict), Wrote(r, R, true, Ready, c, verdict);
    Settles(Two(s, x2, y), 0, c, r, R, true, verdict, c);
    FirstMoves(s, x2, y, c, x3);
    states, acts := Extend([Two(s, x2, y)], [], Move(0, c), Two(s, x3, y));
    GetsReady(Two(s, x3, y), 0, c);
    FirstMoves(s, x3, y, c, x4);
    states, acts := Extend(states, acts, Move(0, c), Two(s, x4, y));
    CommitWrote(Two(s, x4, y), 0, r, R, true, c, verdict);
    assert Two(s, x4, y).txs - {0} == Alone1(s, y).txs;
    states, acts := Extend(states, acts, Commit(0), Alone1(s.(checks := Settle(s, c, verdict), runs := s.runs[r := Ended(R, true)]), y));
  }

  /** Then the second does, with the verdict it counted before. */
  lemma SecondSettles(s: Sys, c: Id, q: Id, Q: Run, verdict: CheckStatus) returns (states: seq<Sys>, acts: seq<Action>)
    requires s.txs == map[] && c in s.checks && !s.checks[c].status.Cancelled?
    ensures Path(states, acts) && states[0] == Alone1(s, Marked(q, Q, true, Settling(c, verdict, {}), {c}))
    ensures states[|acts|] == s.(checks := Settle(s, c, verdict), runs := s.runs[q := Ended(Q, true)])
  {
    var y2 := Marked(q, Q, true, Settling(c, verdict, {}), {c});
    var y3, y4 := Wrote(q, Q, true, Counting({}), c, verdict), Wrote(q, Q, true, Ready, c, verdict);
    Settles(Alone1(s, y2), 1, c, q, Q, true, verdict, c);
    Moves(Alone1(s, y2), 1, c, y3);
    assert Alone1(s, y2).txs[1 := y3] == Alone1(s, y3).txs;
    states, acts := Extend([Alone1(s, y2)], [], Move(1, c), Alone1(s, y3));
    GetsReady(Alone1(s, y3), 1, c);
    Moves(Alone1(s, y3), 1, c, y4);
    assert Alone1(s, y3).txs[1 := y4] == Alone1(s, y4).txs;
    states, acts := Extend(states, acts, Move(1, c), Alone1(s, y4));
    CommitWrote(Alone1(s, y4), 1, q, Q, true, c, verdict);
    assert Alone1(s, y4).txs - {1} == s.txs;
    states, acts := Extend(states, acts, Commit(1), s.(checks := Settle(s, c, verdict), runs := s.runs[q := Ended(Q, true)]));
  }

  /** From `s` some schedule comes to rest with the check not showing its aggregate. */
  ghost predicate CanLose(s: Sys, c: Id) {
    exists states, acts :: Losing(s, c, states, acts)
  }

  ghost predicate Losing(s: Sys, c: Id, states: seq<Sys>, acts: seq<Action>) {
    Path(states, acts) && states[0] == s && states[|acts|].txs == map[] && !ShowsAggregate(states[|acts|], c)
  }

  /** The check is settled with a verdict that is not its runs'. */
  predicate Misled(s: Sys, c: Id) {
    s.txs == map[] && c in s.checks && Settled(s.checks[c].status) && HasRun(s.runs, c) && NoActive(s.runs, c)
    && s.checks[c].status != Verdict(s.runs, c)
  }

  ghost predicate CanMislead(s: Sys, c: Id) {
    exists states, acts :: Misleading(s, c, states, acts)
  }

  ghost predicate Misleading(s: Sys, c: Id, states: seq<Sys>, acts: seq<Action>) {
    Path(states, acts) && states[0] == s && Misled(states[|acts|], c)
  }

  /** Two repeated submissions that both succeed leave partial over runs that all succeeded. */
  lemma WrongVerdict(s: Sys, c: Id, r: Id, q: Id) returns (states: seq<Sys>, acts: seq<Action>)
    requires s.txs == map[] && c in s.checks && !s.checks[c].status.Cancelled? && TwoFailed(s, c, r, q)
    ensures Misleading(s, c, states, acts)
    ensures states[|acts|].checks[c].status == Partial && Verdict(states[|acts|].runs, c) == Completed
  {
    var R, Q := s.runs[r], s.runs[q];
    var p1, a1 := BothMark(s, c, r, q, true);
    var p2, a2 := BothSeePartial(s, c, r, q);
    var p3, a3 := FirstSettles(s, c, r, R, Marked(q, Q, true, Settling(c, Partial, {}), {c}), Partial);
    var half := s.(checks := Settle(s, c, Partial), runs := s.runs[r := Ended(R, true)]);
    var p4, a4 := SecondSettles(half, c, q, Q, Partial);
    PathsJoin(p3, a3, p4, a4);
    PathsJoin(p2, a2, p3 + p4[1..], a3 + a4);
    PathsJoin(p1, a1, p2 + (p3 + p4[1..])[1..], a2 + (a3 + a4));
    states, acts := p1 + (p2 + (p3 + p4[1..])[1..])[1..], a1 + (a2 + (a3 + a4));
    assert states[|acts|] == p4[|a4|];
    AllRepaired(s, c, r, q, p4[|a4|]);
  }

  lemma AllRepaired(s: Sys, c: Id, r: Id, q: Id, end: Sys)
    requires TwoFailed(s, c, r, q) && c in end.checks && end.checks[c].status == Partial
    requires end.runs == s.runs[r := Ended(s.runs[r], true)][q := Ended(s.runs[q], true)]
    ensures HasRun(end.runs, c) && NoActive(end.runs, c) && Verdict(end.runs, c) == Completed
  {
    assert r in end.runs && end.runs[r].checkId == c && NoActive(end.runs, c) && NoFailure(end.runs, c);
  }

  /** What run `k` has to be reported as to set the stage. */
  function Wanted(k: Id, r: Id, q: Id): RunStatus {
    if k == r || k == q then Errored else Done
  }

  function Unlike(s: Sys, c: Id, r: Id, q: Id): set<Id> {
    set k | k in s.runs && s.runs[k].checkId == c && s.runs[k].status != Wanted(k, r, q)
  }

  /** Any quiet state with two runs of a check that is not cancelled leads to a wrong verdict:
      every run is reported again until two failed and the others succeeded, then two race. */
  lemma {:induction false} TwoRunsCanMislead(s: Sys, c: Id, r: Id, q: Id)
    requires s.txs == map[] && c in s.checks && !s.checks[c].status.Cancelled? && r != q && Belongs(s, c, r) && Belongs(s, c, q)
    ensures CanMislead(s, c)
    decreases Unlike(s, c, r, q)
  {
    if o :| o in Unlike(s, c, r, q) {
      var ok := Wanted(o, r, q).Done?;
      var s' := AfterReport(s, o, ok);
      var first, a := CompleteAlone(s, c, o, ok);
      assert Unlike(s', c, r, q) == Unlike(s, c, r, q) - {o};
      TwoRunsCanMislead(s', c, r, q);
      var later, b :| Misleading(s', c, later, b);
      PathsJoin(first, a, later, b);
      assert Misleading(s, c, first + later[1..], a + b);
    } else {
      assert forall k :: k in s.runs && s.runs[k].checkId == c && s.runs[k].status != Wanted(k, r, q) ==> k in Unlike(s, c, r, q);
      var states, acts := WrongVerdict(s, c, r, q);
    }
  }

  // ---- exactly when ----

  /** Nobody can add a run to the check any more. */
  predicate FanOutOver(s: Sys, c: Id) {
    c in s.begun && forall t :: t in s.txs ==> s.txs[t].kind != Creating(c)
  }

  lemma CommitAddsNoRun(s: Sys, x: Tx, c: Id)
    requires WritesOk(s, x) && x.kind != Creating(c)
    ensures OneRun(s.runs, c) ==> OneRun(View(s, x), c)
  {
  }

  lemma StepAddsNoRun(s: Sys, a: Action, c: Id)
    requires Inv(s) && Enabled(s, a) && FanOutOver(s, c)
    ensures FanOutOver(Do(s, a), c)
    ensures OneRun(s.runs, c) ==> OneRun(Do(s, a).runs, c)
  {
    if a.Commit? {
      assert TxOk(s, s.txs[a.t]);
      CommitAddsNoRun(s, s.txs[a.t], c);
    } else if a.Move? && Work(s, a.t, a.row).Go? {
      WorkTakesFreeLocks(s, a.t, a.row);
    }
  }

  lemma {:induction false} OneRunForGood(states: seq<Sys>, acts: seq<Action>, c: Id, i: nat, j: nat)
    requires Execution(states, acts) && i <= j < |states| && FanOutOver(states[i], c) && OneRun(states[i].runs, c)
    ensures FanOutOver(states[j], c) && OneRun(states[j].runs, c)
    decreases j
  {
    if i < j {
      OneRunForGood(states, acts, c, i, j - 1);
      EveryInterleaving(states, acts, j - 1);
      var a := acts[j - 1];
      assert states[j] == Do(states[j - 1], a);
      StepAddsNoRun(states[j - 1], a, c);
    }
  }

  lemma ExecutionContinues(states: seq<Sys>, acts: seq<Action>, more: seq<Sys>, next: seq<Action>)
    requires Execution(states, acts) && Path(more, next) && more[0] == states[|acts|]
    ensures Execution(states + more[1..], acts + next) && (states + more[1..])[|acts| + |next|] == more[|next|]
  {
    forall i | 0 <= i < |acts| ensures Steps(states[i], acts[i], states[i + 1]) {
      var a := acts[i];
    }
    PathsJoin(states, acts, more, next);
    var all, both := states + more[1..], acts + next;
    forall i | 0 <= i < |both| ensures Enabled(all[i], both[i]) && all[i + 1] == Do(all[i], both[i]) {
      var a := both[i];
      assert Steps(all[i], both[i], all[i + 1]);
    }
  }

  /** Whatever has happened to a check that has runs, from any moment with nothing in progress it
      can come to rest without showing the aggregate of its runs exactly when it is not cancelled
      and has more than one. */
  lemma LosesIffManyRuns(states: seq<Sys>, acts: seq<Action>, c: Id)
    requires Execution(states, acts) && states[|acts|].txs == map[] && HasRun(states[|acts|].runs, c)
    ensures c in states[|acts|].checks
    ensures CanLose(states[|acts|], c) <==> !states[|acts|].checks[c].status.Cancelled? && !OneRun(states[|acts|].runs, c)
  {
    var n := |acts|;
    var s := states[n];
    EveryInterleaving(states, acts, n);
    var h :| h in s.runs && s.runs[h].checkId == c;
    if !s.checks[c].status.Cancelled? && !OneRun(s.runs, c) {
      var r, q :| r in s.runs && q in s.runs && s.runs[r].checkId == c && s.runs[q].checkId == c && r != q;
      TwoRunsCanMislead(s, c, r, q);
      var more, next :| Misleading(s, c, more, next);
      assert Losing(s, c, more, next);
    } else if more, next :| Losing(s, c, more, next) {
      ExecutionContinues(states, acts, more, next);
      NeverLost(states + more[1..], acts + next, c, n, n + |next|);
      assert false;
    }
  }

  lemma NeverLost(states: seq<Sys>, acts: seq<Action>, c: Id, i: nat, j: nat)
    requires Execution(states, acts) && i <= j < |states| && FanOutOver(states[i], c) && c in states[i].checks
    requires states[i].checks[c].status.Cancelled? || OneRun(states[i].runs, c)
    ensures ShowsAggregate(states[j], c)
  {
    if OneRun(states[i].runs, c) {
      OneRunForGood(states, acts, c, i, j);
      OneRunAggregates(states, acts, c, j);
    } else {
      NothingRegresses(states, acts, i, j);
    }
  }

  // ---- from the very start ----

  function Fanned(c: Id, node: Id): Run {
    Run(c, node, Queued, 0, None, None)
  }

  /** The run rows after inserting `left` one by one on top of `done`. */
  function InsertAll(c: Id, done: map<Id, Run>, left: seq<(Id, Id)>): map<Id, Run>
    decreases |left|
  {
    if left == [] then done else InsertAll(c, done[left[0].0 := Fanned(c, left[0].1)], left[1..])
  }

  predicate DistinctIds(rows: seq<(Id, Id)>) {
    forall i, j :: 0 <= i < j < |rows| ==> rows[i].0 != rows[j].0
  }

  /** `runs` has `rows` as the check's queued runs, and the rows of `done`. */
  predicate HoldsRows(runs: map<Id, Run>, c: Id, done: map<Id, Run>, rows: seq<(Id, Id)>) {
    && (forall k :: k in done ==> k in runs && runs[k] == done[k])
    && (forall i :: 0 <= i < |rows| ==> rows[i].0 in runs && runs[rows[i].0] == Fanned(c, rows[i].1))
    && (forall k :: k in runs && k !in done ==> exists i :: 0 <= i < |rows| && rows[i].0 == k)
  }

  lemma {:induction false} InsertAllHolds(c: Id, done: map<Id, Run>, left: seq<(Id, Id)>)
    requires DistinctIds(left) && forall i :: 0 <= i < |left| ==> left[i].0 !in done
    ensures HoldsRows(InsertAll(c, done, left), c, done, left)
    decreases |left|
  {
    if left != [] {
      var more := done[left[0].0 := Fanned(c, left[0].1)];
      InsertAllHolds(c, more, left[1..]);
      var runs := InsertAll(c, done, left);
      forall k | k in runs && k !in done ensures exists i :: 0 <= i < |left| && left[i].0 == k {
        if k !in more {
          var i :| 0 <= i < |left[1..]| && left[1..][i].0 == k;
          assert left[i + 1].0 == k;
        }
      }
      forall i | 0 <= i < |left| ensures left[i].0 in runs && runs[left[i].0] == Fanned(c, left[i].1) {
        if i > 0 { assert left[1..][i - 1] == left[i]; }
      }
    }
  }

  function Filling(c: Id, left: seq<(Id, Id)>, done: map<Id, Run>): Tx {
    Tx(Creating(c), Inserting(left), done.Keys, done, map[], {})
  }

  lemma {:induction false} Fills(s: Sys, c: Id, done: map<Id, Run>, left: seq<(Id, Id)>) returns (states: seq<Sys>, acts: seq<Action>)
    requires s.runs == map[] && DistinctIds(left) && forall i :: 0 <= i < |left| ==> left[i].0 !in done
    ensures Path(states, acts) && states[0] == One(s, Filling(c, left, done))
    ensures states[|acts|] == One(s, Filling(c, [], InsertAll(c, done, left)))
    decreases |left|
  {
    if left == [] {
      states, acts := [One(s, Filling(c, left, done))], [];
    } else {
      var x := Filling(c, left, done);
      var more := done[left[0].0 := Fanned(c, left[0].1)];
      var y := Filling(c, left[1..], more);
      assert Work(One(s, x), 0, 0) == Go(y) by {
        assert more.Keys == done.Keys + {left[0].0};
      }
      Moves(One(s, x), 0, 0, y);
      assert One(s, x).txs[0 := y] == One(s, y).txs;
      var first, a := Extend([One(s, x)], [], Move(0, 0), One(s, y));
      var rest, b := Fills(s, c, more, left[1..]);
      PathsJoin(first, a, rest, b);
      states, acts := first + rest[1..], a + b;
    }
  }

  /** The create handler's two transactions, run on an empty system. */
  lemma FanOutReached(c: Id, account: Id, target: string, rows: seq<(Id, Id)>) returns (states: seq<Sys>, acts: seq<Action>)
    requires DistinctIds(rows)
    ensures Execution(states, acts)
    ensures states[|acts|] == Sys(map[c := Check(account, None, target, Pending, 0, None)], InsertAll(c, map[], rows), map[], {c}, [])
  {
    var added := Do(START, AddCheck(c, account, target));
    var x := Filling(c, rows, map[]);
    states, acts := Extend([START], [], AddCheck(c, account, target), added);
    var base := added.(begun := {c});
    assert Fresh(Creating(c), Inserting(rows)) == x && {} + {c} == {c};
    states, acts := Extend(states, acts, BeginCreate(0, c, rows), One(base, x));
    var fill, f := Fills(base, c, map[], rows);
    PathsJoin(states, acts, fill, f);
    states, acts := states + fill[1..], acts + f;
    assert states[|acts|] == fill[|f|];
    var runs := InsertAll(c, map[], rows);
    var full, ready := Filling(c, [], runs), Filling(c, [], runs).(pc := Ready);
    Moves(One(base, full), 0, 0, ready);
    assert One(base, full).txs[0 := ready] == One(base, ready).txs;
    states, acts := Extend(states, acts, Move(0, 0), One(base, ready));
    var end := Sys(added.checks, runs, map[], {c}, []);
    CreateCommits(base, c, runs);
    states, acts := Extend(states, acts, Commit(0), end);
    PathIsExecution(states, acts);
  }

  lemma CreateCommits(base: Sys, c: Id, runs: map<Id, Run>)
    requires base.runs == map[] && base.txs == map[]
    ensures Steps(One(base, Filling(c, [], runs).(pc := Ready)), Commit(0), base.(runs := runs))
  {
    var s := One(base, Filling(c, [], runs).(pc := Ready));
    assert Committed(s, s.txs[0]) == base.checks && View(s, s.txs[0]) == runs;
    assert s.txs - {0} == base.txs;
  }

  lemma PathIsExecution(states: seq<Sys>, acts: seq<Action>)
    requires Path(states, acts) && states[0] == START
    ensures Execution(states, acts)
  {
    forall i | 0 <= i < |acts| ensures Enabled(states[i], acts[i]) && states[i + 1] == Do(states[i], acts[i]) {
      assert Steps(states[i], acts[i], states[i + 1]);
    }
  }

  /** A check created for the nodes of `rows` is there, pending, with one queued run for each, and
      the number of nodes decides whether its status can be lost: exactly when there are two. */
  lemma FanOutDecides(c: Id, account: Id, target: string, rows: seq<(Id, Id)>) returns (states: seq<Sys>, acts: seq<Action>)
    requires DistinctIds(rows) && rows != []
    ensures Execution(states, acts) && states[|acts|].txs == map[]
    ensures c in states[|acts|].checks && states[|acts|].checks[c].status.Pending? && HoldsRows(states[|acts|].runs, c, map[], rows)
    ensures CanLose(states[|acts|], c) <==> |rows| > 1
    ensures |rows| > 1 ==> CanStick(states[|acts|], c) && CanMislead(states[|acts|], c)
  {
    states, acts := FanOutReached(c, account, target, rows);
    var s := states[|acts|];
    InsertAllHolds(c, map[], rows);
    assert rows[0].0 in s.runs && s.runs[rows[0].0].checkId == c;
    if |rows| > 1 {
      assert rows[1].0 in s.runs && s.runs[rows[1].0].checkId == c;
      TwoActiveCanStick(s, c, rows[0].0, rows[1].0);
      TwoRunsCanMislead(s, c, rows[0].0, rows[1].0);
    } else {
      forall k | k in s.runs ensures k == rows[0].0 {
        var i :| 0 <= i < |rows| && rows[i].0 == k;
      }
    }
    LosesIffManyRuns(states, acts, c);
  }
}
