/** Reading a batch page by page, and grouping run rows by check. */
module Paging {
  import opened Records
  import Lifecycle

  const PAGE_CAP := 200
  const DEFAULT_PAGE := 50

  function PageSize(limit: int): nat {
    if limit <= 0 || limit > PAGE_CAP then DEFAULT_PAGE else limit
  }

  /** `LIMIT l OFFSET o` over rows in a stable order. */
  function Page<T>(rows: seq<T>, limit: int, offset: nat): seq<T> {
    if offset >= |rows| then []
    else if |rows| - offset <= PageSize(limit) then rows[offset..]
    else rows[offset..offset + PageSize(limit)]
  }

  /** The offset loop. With a page size the server honours it reads every row once, in
      floor(n / size) + 1 requests; a larger one is cut to the default page and ends the loop
      early, so it reads everything exactly when the rows fit that page. */
  method ReadAllPages<T>(rows: seq<T>, size: nat) returns (out: seq<T>, requests: nat)
    requires size > 0
    ensures size <= 200 ==> out == rows && requests == |rows| / size + 1
    ensures size > 200 ==> requests == 1 && out == rows[..if |rows| <= 50 then |rows| else 50]
  {
    out, requests := [], 0;
    var offset := 0;
    while true
      invariant offset == requests * size && requests * size <= |rows|
      invariant size <= PAGE_CAP ==> out == rows[..offset]
      invariant size > PAGE_CAP ==> requests == 0 && out == []
      decreases |rows| - offset
    {
      var page := Page(rows, size, offset);
      out := out + page;
      requests := requests + 1;
      if |page| < size {
        if size <= PAGE_CAP { QuotientIs(|rows|, size, requests - 1); }
        break;
      }
      offset := offset + size;
    }
  }

  lemma QuotientIs(n: nat, d: nat, q: nat)
    requires d > 0 && q * d <= n < q * d + d
    ensures n / d == q
  {
    var k := n / d;
    assert k * d <= n < k * d + d by { assert n == k * d + n % d; }
    if k < q { Apart(k, q, d); }
    if k > q { Apart(q, k, d); }
  }

  lemma Apart(a: int, b: int, d: nat)
    requires a < b
    ensures a * d + d <= b * d
  {
    assert b * d - a * d - d == (b - a - 1) * d;
  }

  // ---- run rows of many checks at once ----

  datatype RunRow = RunRow(checkId: Id, runId: Id, createdAt: nat, success: Option<bool>)

  /** What the query returns for a set of checks: their rows in the table's listing order. */
  function Select(table: seq<RunRow>, ids: seq<Id>): seq<RunRow> {
    if table == [] then []
    else Select(table[..|table| - 1], ids) + if table[|table| - 1].checkId in ids then [table[|table| - 1]] else []
  }

  function Of(rows: seq<RunRow>, c: Id): seq<RunRow> {
    Select(rows, [c])
  }

  /** `at` lists, in ascending order, the positions below `n` at which `p` holds. */
  ghost predicate Positions(at: seq<nat>, n: nat, p: nat -> bool) {
    && (forall i, j :: 0 <= i < j < |at| ==> at[i] < at[j])
    && (forall i :: 0 <= i < |at| ==> at[i] < n && p(at[i]))
    && (forall k: nat :: k < n && p(k) ==> k in at)
  }

  /** A selection is the rows of the named checks, all of them, each once and in table order. */
  lemma {:induction false} SelectIsInOrder(table: seq<RunRow>, ids: seq<Id>) returns (at: seq<nat>)
    ensures Positions(at, |table|, (k: nat) => k < |table| && table[k].checkId in ids)
    ensures |Select(table, ids)| == |at| && forall i :: 0 <= i < |at| ==> Select(table, ids)[i] == table[at[i]]
  {
    at := [];
    if table != [] {
      var n := |table| - 1;
      var before := SelectIsInOrder(table[..n], ids);
      at := before + if table[n].checkId in ids then [n] else [];
      forall k: nat | k <= n && table[k].checkId in ids ensures k in at {
        if k < n {
          assert k in before;
        } else {
          assert at[|before|] == n;
        }
      }
    }
  }

  /** Groups the selected rows; a check without rows has no key, which reads as no rows. */
  method ListRunsForChecks(table: seq<RunRow>, ids: seq<Id>) returns (out: map<Id, seq<RunRow>>)
    ensures out.Keys == set r | r in Select(table, ids) :: r.checkId
    ensures forall c :: c in out ==> out[c] == Of(Select(table, ids), c) && out[c] != []
  {
    out := map[];
    if |ids| == 0 {
      NothingSelected(table);
      return;
    }
    var rows := Select(table, ids);
    for i := 0 to |rows|
      invariant out.Keys == set r | r in rows[..i] :: r.checkId
      invariant forall c :: Of(rows[..i], c) == if c in out then out[c] else []
      invariant forall c :: c in out ==> out[c] != []
    {
      var r := rows[i];
      assert rows[..i + 1][..i] == rows[..i] && rows[..i + 1] == rows[..i] + [r];
      out := out[r.checkId := (if r.checkId in out then out[r.checkId] else []) + [r]];
    }
    assert rows[..|rows|] == rows;
  }

  lemma {:induction false} NothingSelected(table: seq<RunRow>)
    ensures Select(table, []) == []
  {
    if table != [] { NothingSelected(table[..|table| - 1]); }
  }

  function Lookup(out: map<Id, seq<RunRow>>, c: Id): seq<RunRow> {
    if c in out then out[c] else []
  }

  method ListRunsForCheck(table: seq<RunRow>, c: Id) returns (rows: seq<RunRow>)
    ensures rows == Of(table, c)
  {
    var byCheck := ListRunsForChecks(table, [c]);
    SelectTwice(table, [c], c);
    rows := Lookup(byCheck, c);
    if c !in byCheck { NoRows(Select(table, [c]), c); }
  }

  lemma {:induction false} SelectTwice(table: seq<RunRow>, ids: seq<Id>, c: Id)
    requires c in ids
    ensures Of(Select(table, ids), c) == Of(table, c)
  {
    if table != [] {
      var n := |table| - 1;
      SelectTwice(table[..n], ids, c);
      var s := Select(table, ids);
      if table[n].checkId in ids {
        assert s[..|s| - 1] == Select(table[..n], ids) && s[|s| - 1] == table[n];
        assert Of(s, c) == Of(s[..|s| - 1], c) + if table[n].checkId in [c] then [table[n]] else [];
      } else {
        assert s == Select(table[..n], ids) && table[n].checkId !in [c];
      }
    }
  }

  lemma {:induction false} NoRows(rows: seq<RunRow>, c: Id)
    requires forall r :: r in rows ==> r.checkId != c
    ensures Of(rows, c) == []
  {
    if rows != [] { NoRows(rows[..|rows| - 1], c); }
  }

  /** Asking for many checks at once shows each exactly what asking for it alone shows. */
  method BulkEqualsSingle(table: seq<RunRow>, ids: seq<Id>, c: Id) returns (bulk: seq<RunRow>, single: seq<RunRow>)
    requires c in ids
    ensures bulk == single == Of(table, c)
  {
    var byCheck := ListRunsForChecks(table, ids);
    bulk := Lookup(byCheck, c);
    SelectTwice(table, ids, c);
    if c !in byCheck { NoRows(Select(table, ids), c); }
    single := ListRunsForCheck(table, c);
  }

  // ---- one row per result ----

  /** The left join: a run without results gives one row, otherwise one row per result. */
  function Joined(run: Id, checkId: Id, createdAt: nat, results: seq<ResultRow>): seq<RunRow> {
    if results == [] then []
    else
      var n := |results| - 1;
      Joined(run, checkId, createdAt, results[..n])
      + if results[n].runId == run then [RunRow(checkId, run, createdAt, Some(results[n].success))] else []
  }

  function RowsOfRun(run: Id, checkId: Id, createdAt: nat, results: seq<ResultRow>): seq<RunRow> {
    var joined := Joined(run, checkId, createdAt, results);
    if joined == [] then [RunRow(checkId, run, createdAt, None)] else joined
  }

  /** The joined rows are the run's results, all of them, each once and in log order. */
  lemma {:induction false} JoinedIsInOrder(run: Id, checkId: Id, createdAt: nat, results: seq<ResultRow>) returns (at: seq<nat>)
    ensures Positions(at, |results|, (k: nat) => k < |results| && results[k].runId == run)
    ensures var rows := Joined(run, checkId, createdAt, results);
            |rows| == |at| && forall i :: 0 <= i < |at| ==> rows[i] == RunRow(checkId, run, createdAt, Some(results[at[i]].success))
  {
    at := [];
    if results != [] {
      var n := |results| - 1;
      var before := JoinedIsInOrder(run, checkId, createdAt, results[..n]);
      at := before + if results[n].runId == run then [n] else [];
      forall k: nat | k <= n && results[k].runId == run ensures k in at {
        if k < n {
          assert k in before;
        } else {
          assert at[|before|] == n;
        }
      }
    }
  }

  lemma {:induction false} JoinedPerResult(run: Id, checkId: Id, createdAt: nat, results: seq<ResultRow>)
    ensures |Joined(run, checkId, createdAt, results)| == Lifecycle.Count(results, run)
  {
    if results != [] { JoinedPerResult(run, checkId, createdAt, results[..|results| - 1]); }
  }

  /** A run is listed once per accepted submission, so a run reported twice shows up twice. */
  lemma OneRowPerResult(run: Id, checkId: Id, createdAt: nat, results: seq<ResultRow>)
    ensures var n := Lifecycle.Count(results, run);
            |RowsOfRun(run, checkId, createdAt, results)| == if n == 0 then 1 else n
  {
    JoinedPerResult(run, checkId, createdAt, results);
  }
}
