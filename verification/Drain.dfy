/** How a node's queue empties when nothing is added to it: every poll takes the oldest runs,
    and the number of polls is the queue length over the claim limit, rounded up. */
module Drain {
  import opened Records
  import opened Lifecycle

  /** The node's queue is the same in both states; other nodes may have done anything. */
  ghost predicate SameQueue(a: Db, b: Db, node: Id) {
    && QueuedOf(a, node) == QueuedOf(b, node)
    && forall r :: r in QueuedOf(a, node) ==> r in a.runs && r in b.runs && a.runs[r].createdAt == b.runs[r].createdAt
  }

  /** Poll `i` finds `dbs[i]`, claims `picks[i]`, and the queue is left alone until poll i + 1. */
  ghost predicate Polls(dbs: seq<Db>, picks: seq<seq<Id>>, node: Id, limit: int, clock: nat -> nat) {
    && |dbs| == |picks| + 1
    && forall i {:trigger picks[i]} :: 0 <= i < |picks| ==>
         && ClaimPick(dbs[i], node, limit, picks[i])
         && SameQueue(Claim(dbs[i], picks[i], clock(i)), dbs[i + 1], node)
  }

  function Members(pick: seq<Id>): set<Id> {
    set r | r in pick
  }

  lemma {:induction false} DistinctSize(pick: seq<Id>)
    requires forall i, j :: 0 <= i < j < |pick| ==> pick[i] != pick[j]
    ensures |Members(pick)| == |pick|
  {
    if pick != [] {
      var n := |pick| - 1;
      DistinctSize(pick[..n]);
      assert pick == pick[..n] + [pick[n]];
      assert Members(pick) == Members(pick[..n]) + {pick[n]};
    }
  }

  lemma ClaimShrinksQueue(db: Db, node: Id, limit: int, pick: seq<Id>, now: nat)
    requires ClaimPick(db, node, limit, pick)
    ensures QueuedOf(Claim(db, pick, now), node) == QueuedOf(db, node) - Members(pick)
    ensures |QueuedOf(Claim(db, pick, now), node)| == |QueuedOf(db, node)| - |pick|
  {
    var after := Claim(db, pick, now);
    assert QueuedOf(after, node) == QueuedOf(db, node) - Members(pick) by {
      forall r ensures r in QueuedOf(after, node) <==> r in QueuedOf(db, node) - Members(pick) {
        if r in db.runs { assert after.runs[r] == if r in pick then db.runs[r].(status := Dispatched, dispatchedAt := Some(now)) else db.runs[r]; }
      }
    }
    DistinctSize(pick);
    assert Members(pick) <= QueuedOf(db, node);
  }

  /** After `k` polls at most `k` times the limit is gone, and exactly that while runs remain. */
  lemma {:induction false} QueueAfter(dbs: seq<Db>, picks: seq<seq<Id>>, node: Id, limit: int, clock: nat -> nat, k: nat)
    requires Polls(dbs, picks, node, limit, clock) && k <= |picks|
    ensures var n, taken := |QueuedOf(dbs[0], node)|, k * ClaimLimit(limit);
            |QueuedOf(dbs[k], node)| == if taken < n then n - taken else 0
  {
    if k > 0 {
      QueueAfter(dbs, picks, node, limit, clock, k - 1);
      var pick := picks[k - 1];
      ClaimShrinksQueue(dbs[k - 1], node, limit, pick, clock(k - 1));
      assert k * ClaimLimit(limit) == (k - 1) * ClaimLimit(limit) + ClaimLimit(limit);
    }
  }

  function CeilDiv(n: nat, d: nat): nat
    requires d > 0
  {
    (n + d - 1) / d
  }

  lemma CeilDivBounds(n: nat, d: nat)
    requires d > 0
    ensures CeilDiv(n, d) * d >= n
    ensures forall k: nat :: k < CeilDiv(n, d) ==> k * d < n
  {
    var q := CeilDiv(n, d);
    assert n + d - 1 == q * d + (n + d - 1) % d;
    forall k: nat | k < q ensures k * d < n {
      Multiples(k + 1, q, d);
      assert (k + 1) * d == k * d + d;
    }
  }

  lemma Multiples(a: nat, b: nat, d: nat)
    requires a <= b
    ensures a * d <= b * d
  {
    assert b * d - a * d == (b - a) * d;
  }

  /** n queued runs are drained in exactly ceil(n / L) polls: empty after that many, not sooner. */
  lemma DrainedInCeil(dbs: seq<Db>, picks: seq<seq<Id>>, node: Id, limit: int, clock: nat -> nat)
    requires Polls(dbs, picks, node, limit, clock)
    requires |picks| >= CeilDiv(|QueuedOf(dbs[0], node)|, ClaimLimit(limit))
    ensures var rounds := CeilDiv(|QueuedOf(dbs[0], node)|, ClaimLimit(limit));
            && QueuedOf(dbs[rounds], node) == {}
            && forall k :: 0 <= k < rounds ==> QueuedOf(dbs[k], node) != {}
  {
    var n, L := |QueuedOf(dbs[0], node)|, ClaimLimit(limit);
    var rounds := CeilDiv(n, L);
    CeilDivBounds(n, L);
    QueueAfter(dbs, picks, node, limit, clock, rounds);
    forall k | 0 <= k < rounds ensures QueuedOf(dbs[k], node) != {} {
      QueueAfter(dbs, picks, node, limit, clock, k);
      assert k * L < n;
    }
  }

  /** The same in rows and numbers: the runs queued for the node are gone after as many polls as
      it takes at L runs each and not before, where L is the requested limit from 1 to 100 and
      50 otherwise. */
  lemma DrainedByRow(dbs: seq<Db>, picks: seq<seq<Id>>, node: Id, limit: int, clock: nat -> nat, queue: set<Id>, L: nat, k: nat)
    requires Polls(dbs, picks, node, limit, clock) && k <= |picks|
    requires forall r :: r in queue <==>
      r in dbs[0].runs && dbs[0].runs[r].nodeId == node && dbs[0].runs[r].status == Queued && dbs[0].runs[r].checkId in dbs[0].checks
    requires L == if 1 <= limit <= 100 then limit else 50
    ensures (exists r :: r in dbs[k].runs && dbs[k].runs[r].nodeId == node && dbs[k].runs[r].status == Queued && dbs[k].runs[r].checkId in dbs[k].checks)
            <==> k * L < |queue|
  {
    assert queue == QueuedOf(dbs[0], node);
    QueueAfter(dbs, picks, node, limit, clock, k);
    SomeQueued(dbs[k], node);
  }

  lemma SomeQueued(db: Db, node: Id)
    ensures (exists r :: r in db.runs && db.runs[r].nodeId == node && db.runs[r].status == Queued && db.runs[r].checkId in db.checks)
            <==> |QueuedOf(db, node)| > 0
  {
    if |QueuedOf(db, node)| > 0 {
      var r :| r in QueuedOf(db, node);
      assert db.runs[r].status == Queued;
    }
    if r :| r in db.runs && db.runs[r].nodeId == node && db.runs[r].status == Queued && db.runs[r].checkId in db.checks {
      assert r in QueuedOf(db, node);
    }
  }

  /** What is still queued at poll j was queued, unpicked and of the same age, at every earlier poll. */
  lemma {:induction false} QueueOnlyShrinks(dbs: seq<Db>, picks: seq<seq<Id>>, node: Id, limit: int, clock: nat -> nat, i: nat, j: nat)
    requires Polls(dbs, picks, node, limit, clock) && i <= j <= |picks|
    ensures forall r :: r in QueuedOf(dbs[j], node) ==>
              r in QueuedOf(dbs[i], node) && dbs[i].runs[r].createdAt == dbs[j].runs[r].createdAt && (i < j ==> r !in picks[i])
    decreases j - i
  {
    if i < j {
      QueueOnlyShrinks(dbs, picks, node, limit, clock, i + 1, j);
      var pick := picks[i];
      forall r | r in QueuedOf(dbs[j], node)
        ensures r in QueuedOf(dbs[i], node) && dbs[i].runs[r].createdAt == dbs[j].runs[r].createdAt && r !in pick
      {
        StillThere(dbs[i], dbs[i + 1], node, limit, pick, clock(i), r);
      }
    }
  }

  /** A run queued after a poll was queued before it, as old, and not picked. */
  lemma StillThere(db: Db, next: Db, node: Id, limit: int, pick: seq<Id>, now: nat, r: Id)
    requires ClaimPick(db, node, limit, pick) && SameQueue(Claim(db, pick, now), next, node) && r in QueuedOf(next, node)
    ensures r in QueuedOf(db, node) && r !in pick && db.runs[r].createdAt == next.runs[r].createdAt
  {
    ClaimShrinksQueue(db, node, limit, pick, now);
    assert r in QueuedOf(Claim(db, pick, now), node);
    assert r !in Members(pick);
  }

  /** Oldest first across polls, and no run in two of them. */
  lemma OldestFirst(dbs: seq<Db>, picks: seq<seq<Id>>, node: Id, limit: int, clock: nat -> nat, i: nat, j: nat)
    requires Polls(dbs, picks, node, limit, clock) && i < j < |picks|
    ensures forall a, b :: a in picks[i] && b in picks[j] ==>
              && a != b && a in dbs[i].runs && b in dbs[i].runs
              && dbs[i].runs[a].createdAt <= dbs[i].runs[b].createdAt
  {
    QueueOnlyShrinks(dbs, picks, node, limit, clock, i, j);
    var earlier, later := picks[i], picks[j];
    forall a, b | a in earlier && b in later
      ensures a != b && a in dbs[i].runs && b in dbs[i].runs && dbs[i].runs[a].createdAt <= dbs[i].runs[b].createdAt
    {
      assert b in QueuedOf(dbs[j], node);
      var x :| 0 <= x < |earlier| && earlier[x] == a;
      assert earlier[x] in QueuedOf(dbs[i], node);
    }
  }

  /** Nothing is left behind: by the end every run of the queue was in some poll. */
  lemma {:induction false} EveryRunPolled(dbs: seq<Db>, picks: seq<seq<Id>>, node: Id, limit: int, clock: nat -> nat, k: nat, r: Id)
    requires Polls(dbs, picks, node, limit, clock) && k <= |picks|
    requires r in QueuedOf(dbs[0], node) && r !in QueuedOf(dbs[k], node)
    ensures exists i :: 0 <= i < k && r in picks[i]
  {
    var pick := picks[k - 1];
    if r in QueuedOf(dbs[k - 1], node) {
      LeftByPick(dbs[k - 1], dbs[k], node, limit, pick, clock(k - 1), r);
    } else {
      EveryRunPolled(dbs, picks, node, limit, clock, k - 1, r);
    }
  }

  lemma LeftByPick(db: Db, next: Db, node: Id, limit: int, pick: seq<Id>, now: nat, r: Id)
    requires ClaimPick(db, node, limit, pick) && SameQueue(Claim(db, pick, now), next, node)
    requires r in QueuedOf(db, node) && r !in QueuedOf(next, node)
    ensures r in pick
  {
    ClaimShrinksQueue(db, node, limit, pick, now);
    assert r !in QueuedOf(Claim(db, pick, now), node);
    assert r in Members(pick);
  }
}
