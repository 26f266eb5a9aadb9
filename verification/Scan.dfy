/** The bot's tracked scan: targets dispatched in chunks, progress polled page by page until all
    checks are over or the ceiling is hit, then one full read and a merge. */
module Scan {
  import opened Records
  import opened Merge
  import opened Paging
  import opened Text
  import Guarantees
  import Interleaving
  import Lifecycle

  const CHUNK := 200
  const POLL_INTERVAL_MS := 5000
  const CEILING_MS := 1_800_000

  // ---- chunking ----

  /** Nothing lost, reordered or repeated; every chunk full but perhaps the last, none empty. */
  ghost predicate IsChunking<T>(chunks: seq<seq<T>>, items: seq<T>, size: nat) {
    && Concat(chunks) == items
    && (forall k :: 0 <= k < |chunks| ==> 1 <= |chunks[k]| <= size)
    && (forall k :: 0 <= k < |chunks| - 1 ==> |chunks[k]| == size)
  }

  method ChunkTargets<T>(items: seq<T>, size: nat) returns (chunks: seq<seq<T>>)
    requires size > 0
    ensures IsChunking(chunks, items, size)
  {
    chunks := [];
    var i := 0;
    while i < |items|
      invariant 0 <= i
      invariant IsChunking(chunks, items[..if i < |items| then i else |items|], size)
      invariant i < |items| ==> forall k :: 0 <= k < |chunks| ==> |chunks[k]| == size
    {
      var end := if i + size < |items| then i + size else |items|;
      assert (chunks + [items[i..end]])[..|chunks|] == chunks;
      assert items[..i] + items[i..end] == items[..end];
      chunks := chunks + [items[i..end]];
      i := i + size;
    }
    assert items[..|items|] == items;
  }

  // ---- what the bot can see of the server ----

  datatype Job = Job(spec: Spec, targets: seq<string>)

  /** The checks of chunk `j` as the server would list them at time `t`. */
  type World = (nat, nat) -> seq<CheckView>

  function Names(rows: seq<CheckView>): seq<string> {
    seq(|rows|, p requires 0 <= p < |rows| => rows[p].target)
  }

  /** The listing of a chunk starts out with one check per target of the chunk, in some order; the
      order stays, and no check is reopened. */
  ghost predicate Stable(world: World, jobs: seq<Job>) {
    && (forall j :: 0 <= j < |jobs| ==> multiset(Names(world(j, 0))) == multiset(jobs[j].targets))
    && (forall j, t, u :: 0 <= j < |jobs| && t <= u ==> Successor(world(j, t), world(j, u), |jobs[j].targets|))
  }

  /** The same checks, later. */
  predicate Successor(before: seq<CheckView>, after: seq<CheckView>, n: nat) {
    && |before| == |after| == n
    && forall p :: 0 <= p < n ==>
         after[p].id == before[p].id && after[p].target == before[p].target && (!StillPending(before[p]) ==> !StillPending(after[p]))
  }

  /** When round `r` reads page `k` of chunk `j`; rounds do not overlap, requests of one may. */
  type Clock = (nat, nat, nat) -> nat

  ghost predicate RoundsInOrder(at: Clock) {
    forall r: nat, s: nat, j: nat, k: nat, i: nat, l: nat :: r < s ==> at(r, j, k) <= at(s, i, l)
  }

  // ---- why the server is stable ----

  /** How one state of the tables lists the checks `ids`; `shown` gives each check's runs. */
  function Listing(db: Db, ids: seq<Id>, shown: (Db, Id) -> seq<RunView>): seq<CheckView>
    requires forall p :: 0 <= p < |ids| ==> ids[p] in db.checks
  {
    seq(|ids|, p requires 0 <= p < |ids| => CheckView(ids[p], db.checks[ids[p]].target, db.checks[ids[p]].status, shown(db, ids[p])))
  }

  lemma ListingStays(before: Db, after: Db, ids: seq<Id>, shown: (Db, Id) -> seq<RunView>)
    requires Lifecycle.NoRegress(before, after) && forall p :: 0 <= p < |ids| ==> ids[p] in before.checks
    ensures forall p :: 0 <= p < |ids| ==> ids[p] in after.checks
    ensures Successor(Listing(before, ids, shown), Listing(after, ids, shown), |ids|)
  {
  }

  /** `world` shows, for every chunk, its checks as some state of the server has them, never
      an earlier state later. */
  ghost predicate ShownBy(world: World, dbs: seq<Db>, when: nat -> nat, ids: seq<seq<Id>>, shown: (Db, Id) -> seq<RunView>) {
    && (forall t, u :: t <= u ==> when(t) <= when(u) < |dbs|)
    && (forall j, t :: 0 <= j < |ids| ==>
          && when(t) < |dbs|
          && (forall p :: 0 <= p < |ids[j]| ==> ids[j][p] in dbs[when(t)].checks)
          && world(j, t) == Listing(dbs[when(t)], ids[j], shown))
  }

  /** However the server's transactions interleave, what it lists for the checks of a scan is
      stable once they have been created for the chunk's targets: nothing a poll has seen over is
      open in a later poll, and every check keeps its target. */
  lemma ServerIsStable(states: seq<Interleaving.Sys>, acts: seq<Interleaving.Action>, world: World, when: nat -> nat,
                       jobs: seq<Job>, ids: seq<seq<Id>>, shown: (Db, Id) -> seq<RunView>)
    requires Interleaving.Execution(states, acts)
    requires ShownBy(world, seq(|states|, i requires 0 <= i < |states| => Guarantees.Tables(states[i])), when, ids, shown)
    requires |ids| == |jobs| && forall j :: 0 <= j < |jobs| ==> |ids[j]| == |jobs[j].targets|
    requires forall j :: 0 <= j < |jobs| ==> multiset(Names(world(j, 0))) == multiset(jobs[j].targets)
    ensures Stable(world, jobs)
  {
    var dbs := seq(|states|, i requires 0 <= i < |states| => Guarantees.Tables(states[i]));
    forall j, t: nat, u: nat | 0 <= j < |jobs| && t <= u ensures Successor(world(j, t), world(j, u), |jobs[j].targets|) {
      Guarantees.NothingRegresses(states, acts, when(t), when(u));
      assert world(j, t) == Listing(dbs[when(t)], ids[j], shown) && world(j, u) == Listing(dbs[when(u)], ids[j], shown);
      ListingStays(dbs[when(t)], dbs[when(u)], ids[j], shown);
    }
  }

  // ---- reading a chunk ----

  /** The first rows a paged read of chunk `j` in round `r` puts together. */
  ghost predicate ReadSoFar(rows: seq<CheckView>, world: World, at: Clock, r: nat, j: nat, n: nat) {
    |rows| <= n && forall p :: 0 <= p < |rows| ==> |world(j, at(r, j, p / CHUNK))| == n && rows[p] == world(j, at(r, j, p / CHUNK))[p]
  }

  /** All the rows of the chunk: row `p` as page `p / CHUNK` of the round shows it. */
  ghost predicate ReadIn(rows: seq<CheckView>, world: World, at: Clock, r: nat, j: nat, n: nat) {
    |rows| == n && ReadSoFar(rows, world, at, r, j, n)
  }

  lemma PageRows(n: nat, k: nat, p: nat)
    requires k * CHUNK <= p < k * CHUNK + CHUNK
    ensures p / CHUNK == k
  {
  }

  /** Page `k` continues what the pages before it gave, and is short exactly when it is the last. */
  lemma PageContinues(out: seq<CheckView>, world: World, at: Clock, r: nat, j: nat, n: nat, k: nat)
    requires |out| == k * CHUNK <= n && ReadSoFar(out, world, at, r, j, n) && |world(j, at(r, j, k))| == n
    ensures var rows := Page(world(j, at(r, j, k)), CHUNK, k * CHUNK);
            && ReadSoFar(out + rows, world, at, r, j, n)
            && |rows| == if n - k * CHUNK < CHUNK then n - k * CHUNK else CHUNK
  {
    var listed := world(j, at(r, j, k));
    var more := out + Page(listed, CHUNK, k * CHUNK);
    forall p | 0 <= p < |more| ensures |world(j, at(r, j, p / CHUNK))| == n && more[p] == world(j, at(r, j, p / CHUNK))[p] {
      if p >= |out| { PageRows(n, k, p); }
    }
  }

  method FetchChunkChecks(world: World, at: Clock, r: nat, j: nat, ghost n: nat) returns (out: seq<CheckView>)
    requires forall t :: |world(j, t)| == n
    ensures ReadIn(out, world, at, r, j, n)
  {
    out := [];
    var k := 0;
    while true
      invariant |out| == k * CHUNK <= n && ReadSoFar(out, world, at, r, j, n)
      decreases n - k * CHUNK
    {
      PageContinues(out, world, at, r, j, n, k);
      var rows := Page(world(j, at(r, j, k)), CHUNK, k * CHUNK);
      out := out + rows;
      if |rows| < CHUNK { break; }
      k := k + 1;
    }
  }

  function SettledCount(rows: seq<CheckView>): nat {
    if rows == [] then 0 else SettledCount(rows[..|rows| - 1]) + if StillPending(rows[|rows| - 1]) then 0 else 1
  }

  lemma {:induction false} SettledCountAppend(a: seq<CheckView>, b: seq<CheckView>)
    ensures SettledCount(a + b) == SettledCount(a) + SettledCount(b)
  {
    if b == [] {
      assert a + b == a;
    } else {
      var n := |b| - 1;
      SettledCountAppend(a, b[..n]);
      assert (a + b)[..|a + b| - 1] == a + b[..n];
    }
  }

  lemma {:induction false} SettledCountBounds(rows: seq<CheckView>)
    ensures SettledCount(rows) <= |rows|
    ensures SettledCount(rows) == |rows| <==> forall p :: 0 <= p < |rows| ==> !StillPending(rows[p])
  {
    if rows != [] { SettledCountBounds(rows[..|rows| - 1]); }
  }

  lemma {:induction false} SettledCountGrows(before: seq<CheckView>, after: seq<CheckView>)
    requires |before| == |after| && forall p :: 0 <= p < |before| && !StillPending(before[p]) ==> !StillPending(after[p])
    ensures SettledCount(before) <= SettledCount(after)
  {
    if before != [] { SettledCountGrows(before[..|before| - 1], after[..|after| - 1]); }
  }

  /** It is the number of rows that are neither pending nor running. */
  lemma {:induction false} SettledCountIsSize(rows: seq<CheckView>, over: set<nat>)
    requires forall p: nat :: p in over <==> p < |rows| && rows[p].status != Pending && rows[p].status != Running
    ensures SettledCount(rows) == |over|
  {
    if rows == [] {
      assert over == {};
    } else {
      var n: nat := |rows| - 1;
      SettledCountIsSize(rows[..n], over - {n});
    }
  }

  method CountSettled(rows: seq<CheckView>) returns (done: nat)
    ensures done == SettledCount(rows)
  {
    done := 0;
    for i := 0 to |rows|
      invariant done == SettledCount(rows[..i])
    {
      assert rows[..i + 1][..i] == rows[..i];
      if !StillPending(rows[i]) { done := done + 1; }
    }
    assert rows[..|rows|] == rows;
  }

  /** The same pages, counted instead of kept; a chunk of one target is read directly. */
  method FetchChunkProgress(world: World, at: Clock, r: nat, j: nat, n: nat) returns (done: nat, total: nat, ghost seen: seq<CheckView>)
    requires n > 0 && forall t :: |world(j, t)| == n
    ensures ReadIn(seen, world, at, r, j, n) && done == SettledCount(seen) && total == n
  {
    if n == 1 {
      var check := world(j, at(r, j, 0))[0];
      seen := [check];
      assert seen[..0] == [];
      return if StillPending(check) then 0 else 1, 1, seen;
    }
    done, total, seen := 0, n, [];
    var k := 0;
    while true
      invariant |seen| == k * CHUNK <= n && ReadSoFar(seen, world, at, r, j, n) && done == SettledCount(seen)
      decreases n - k * CHUNK
    {
      PageContinues(seen, world, at, r, j, n, k);
      var rows := Page(world(j, at(r, j, k)), CHUNK, k * CHUNK);
      var more := CountSettled(rows);
      SettledCountAppend(seen, rows);
      done := done + more;
      seen := seen + rows;
      if |rows| < CHUNK { break; }
      k := k + 1;
    }
  }

  // ---- progress over all chunks ----

  datatype Progress = Progress(done: nat, total: nat)

  function Sum(xs: seq<nat>): nat {
    if xs == [] then 0 else Sum(xs[..|xs| - 1]) + xs[|xs| - 1]
  }

  lemma {:induction false} SumGrows(xs: seq<nat>, ys: seq<nat>)
    requires |xs| == |ys| && forall i :: 0 <= i < |xs| ==> xs[i] <= ys[i]
    ensures Sum(xs) <= Sum(ys)
    ensures Sum(xs) == Sum(ys) ==> xs == ys
  {
    if xs != [] { SumGrows(xs[..|xs| - 1], ys[..|ys| - 1]); }
  }

  function Sizes(jobs: seq<Job>): seq<nat> {
    seq(|jobs|, j requires 0 <= j < |jobs| => |jobs[j].targets|)
  }

  function Counts(seen: seq<seq<CheckView>>): seq<nat> {
    seq(|seen|, j requires 0 <= j < |seen| => SettledCount(seen[j]))
  }

  /** What one round read of every chunk. */
  ghost predicate Round(seen: seq<seq<CheckView>>, world: World, at: Clock, r: nat, jobs: seq<Job>) {
    |seen| == |jobs| && forall j :: 0 <= j < |jobs| ==> ReadIn(seen[j], world, at, r, j, |jobs[j].targets|)
  }

  /** `p` is how many checks round `r` found settled, out of all. */
  ghost predicate ShowsRound(p: Progress, world: World, at: Clock, r: nat, jobs: seq<Job>) {
    exists seen :: Round(seen, world, at, r, jobs) && p == Progress(Sum(Counts(seen)), Sum(Sizes(jobs)))
  }

  lemma CountsMore(seen: seq<seq<CheckView>>, rows: seq<CheckView>)
    ensures Sum(Counts(seen + [rows])) == Sum(Counts(seen)) + SettledCount(rows)
  {
    assert Counts(seen + [rows])[..|seen|] == Counts(seen);
  }

  lemma SizesMore(jobs: seq<Job>, j: nat)
    requires j < |jobs|
    ensures Sum(Sizes(jobs)[..j + 1]) == Sum(Sizes(jobs)[..j]) + |jobs[j].targets|
  {
    assert Sizes(jobs)[..j + 1][..j] == Sizes(jobs)[..j];
  }

  method FetchProgress(world: World, at: Clock, r: nat, jobs: seq<Job>) returns (p: Progress, ghost seen: seq<seq<CheckView>>)
    requires Stable(world, jobs) && forall j :: 0 <= j < |jobs| ==> |jobs[j].targets| > 0
    ensures Round(seen, world, at, r, jobs)
    ensures p == Progress(Sum(Counts(seen)), Sum(Sizes(jobs)))
    ensures ShowsRound(p, world, at, r, jobs)
  {
    p, seen := Progress(0, 0), [];
    for j := 0 to |jobs|
      invariant |seen| == j && forall k :: 0 <= k < j ==> ReadIn(seen[k], world, at, r, k, |jobs[k].targets|)
      invariant p == Progress(Sum(Counts(seen)), Sum(Sizes(jobs)[..j]))
    {
      forall t ensures |world(j, t)| == |jobs[j].targets| {
        assert Successor(world(j, t), world(j, t), |jobs[j].targets|);
      }
      ghost var rows;
      var done, total;
      done, total, rows := FetchChunkProgress(world, at, r, j, |jobs[j].targets|);
      CountsMore(seen, rows);
      SizesMore(jobs, j);
      p := Progress(p.done + done, p.total + total);
      seen := seen + [rows];
    }
    assert Sizes(jobs)[..|jobs|] == Sizes(jobs);
  }

  predicate SettlesMore(before: seq<CheckView>, after: seq<CheckView>) {
    |before| == |after| && forall p :: 0 <= p < |before| && !StillPending(before[p]) ==> !StillPending(after[p])
  }

  lemma ChunkSettlesMore(world: World, at: Clock, r: nat, s: nat, jobs: seq<Job>, j: nat, before: seq<CheckView>, after: seq<CheckView>)
    requires Stable(world, jobs) && RoundsInOrder(at) && r < s && j < |jobs|
    requires ReadIn(before, world, at, r, j, |jobs[j].targets|) && ReadIn(after, world, at, s, j, |jobs[j].targets|)
    ensures SettlesMore(before, after)
  {
    var n := |jobs[j].targets|;
    forall p | 0 <= p < n && !StillPending(before[p]) ensures !StillPending(after[p]) {
      assert Successor(world(j, at(r, j, p / CHUNK)), world(j, at(s, j, p / CHUNK)), n);
    }
  }

  /** A later round shows at least as much done, and never more than there is. */
  lemma LaterReadSettlesMore(world: World, at: Clock, r: nat, s: nat, jobs: seq<Job>, seen: seq<seq<CheckView>>, later: seq<seq<CheckView>>)
    requires Stable(world, jobs) && RoundsInOrder(at) && r < s
    requires Round(seen, world, at, r, jobs) && Round(later, world, at, s, jobs)
    ensures forall j :: 0 <= j < |jobs| ==> SettlesMore(seen[j], later[j])
    ensures Sum(Counts(seen)) <= Sum(Counts(later))
  {
    forall j | 0 <= j < |jobs| ensures SettlesMore(seen[j], later[j]) && SettledCount(seen[j]) <= SettledCount(later[j]) {
      ChunkSettlesMore(world, at, r, s, jobs, j, seen[j], later[j]);
      SettledCountGrows(seen[j], later[j]);
    }
    SumGrows(Counts(seen), Counts(later));
  }

  lemma DoneAtMostTotal(jobs: seq<Job>, seen: seq<seq<CheckView>>)
    requires |seen| == |jobs| && forall j :: 0 <= j < |jobs| ==> |seen[j]| == |jobs[j].targets|
    ensures Sum(Counts(seen)) <= Sum(Sizes(jobs))
  {
    forall j | 0 <= j < |jobs| ensures SettledCount(seen[j]) <= |seen[j]| {
      SettledCountBounds(seen[j]);
    }
    SumGrows(Counts(seen), Sizes(jobs));
  }

  lemma AllSettled(jobs: seq<Job>, seen: seq<seq<CheckView>>)
    requires |seen| == |jobs| && forall j :: 0 <= j < |jobs| ==> |seen[j]| == |jobs[j].targets|
    requires Sum(Counts(seen)) >= Sum(Sizes(jobs))
    ensures forall j, p :: 0 <= j < |jobs| && 0 <= p < |jobs[j].targets| ==> !StillPending(seen[j][p])
    ensures Sum(Counts(seen)) == Sum(Sizes(jobs))
  {
    DoneAtMostTotal(jobs, seen);
    forall j | 0 <= j < |jobs| ensures SettledCount(seen[j]) <= |seen[j]| {
      SettledCountBounds(seen[j]);
    }
    SumGrows(Counts(seen), Sizes(jobs));
    forall j | 0 <= j < |jobs| ensures forall p :: 0 <= p < |jobs[j].targets| ==> !StillPending(seen[j][p]) {
      assert Counts(seen)[j] == Sizes(jobs)[j];
      SettledCountBounds(seen[j]);
    }
  }

  // ---- grouping by spec ----

  function SpecsOf(groups: seq<Group>): seq<Spec> {
    seq(|groups|, k requires 0 <= k < |groups| => groups[k].spec)
  }

  /** The checks of every chunk of a spec, chunk by chunk. */
  function ChecksFor(jobs: seq<Job>, read: seq<seq<CheckView>>, spec: Spec): seq<CheckView>
    requires |jobs| == |read|
  {
    if jobs == [] then []
    else
      var n := |jobs| - 1;
      ChecksFor(jobs[..n], read[..n], spec) + if jobs[n].spec == spec then read[n] else []
  }

  predicate HasGroup(groups: seq<Group>, spec: Spec) {
    exists g :: 0 <= g < |groups| && groups[g].spec == spec
  }

  ghost predicate Grouped(groups: seq<Group>, jobs: seq<Job>, read: seq<seq<CheckView>>)
    requires |jobs| == |read|
  {
    && DistinctSpecs(groups)
    && (forall g :: 0 <= g < |groups| ==> groups[g].checks == ChecksFor(jobs, read, groups[g].spec))
    && (forall j :: 0 <= j < |jobs| ==> HasGroup(groups, jobs[j].spec))
    && (forall g :: 0 <= g < |groups| ==> HasJob(jobs, groups[g].spec))
  }

  predicate HasJob(jobs: seq<Job>, spec: Spec) {
    exists j :: 0 <= j < |jobs| && jobs[j].spec == spec
  }

  lemma {:induction false} NoChunkNoChecks(jobs: seq<Job>, read: seq<seq<CheckView>>, spec: Spec)
    requires |jobs| == |read| && forall j :: 0 <= j < |jobs| ==> jobs[j].spec != spec
    ensures ChecksFor(jobs, read, spec) == []
  {
    if jobs != [] { NoChunkNoChecks(jobs[..|jobs| - 1], read[..|read| - 1], spec); }
  }

  /** Where the map already has the spec, or -1. */
  method FindGroup(groups: seq<Group>, spec: Spec) returns (g: int)
    ensures -1 <= g < |groups|
    ensures g >= 0 ==> groups[g].spec == spec
    ensures g < 0 ==> forall k :: 0 <= k < |groups| ==> groups[k].spec != spec
  {
    g := 0;
    while g < |groups|
      invariant 0 <= g <= |groups| && forall k :: 0 <= k < g ==> groups[k].spec != spec
    {
      if groups[g].spec == spec { return; }
      g := g + 1;
    }
    g := -1;
  }

  /** `out` is `groups` with the chunk's rows in group `g`, the one of its spec, which is new if
      there was none. */
  ghost predicate Joins(groups: seq<Group>, out: seq<Group>, job: Job, rows: seq<CheckView>, g: nat) {
    if g < |groups| then groups[g].spec == job.spec && out == groups[g := Group(job.spec, groups[g].checks + rows)]
    else g == |groups| && (forall k :: 0 <= k < |groups| ==> groups[k].spec != job.spec) && out == groups + [Group(job.spec, rows)]
  }

  lemma JoinedDistinct(groups: seq<Group>, out: seq<Group>, job: Job, rows: seq<CheckView>, g: nat)
    requires DistinctSpecs(groups) && Joins(groups, out, job, rows, g)
    ensures DistinctSpecs(out)
    ensures forall k :: 0 <= k < |out| && k != g ==> k < |groups| && out[k] == groups[k] && out[k].spec != job.spec
  {
  }

  lemma JoinedChecks(groups: seq<Group>, out: seq<Group>, jobs: seq<Job>, read: seq<seq<CheckView>>, job: Job, rows: seq<CheckView>, g: nat)
    requires |jobs| == |read| && Grouped(groups, jobs, read) && Joins(groups, out, job, rows, g)
    ensures forall k :: 0 <= k < |out| ==> out[k].checks == ChecksFor(jobs + [job], read + [rows], out[k].spec)
  {
    JoinedDistinct(groups, out, job, rows, g);
    assert (jobs + [job])[..|jobs|] == jobs && (read + [rows])[..|read|] == read;
    if g == |groups| {
      forall k | 0 <= k < |jobs| ensures jobs[k].spec != job.spec {
        assert HasGroup(groups, jobs[k].spec);
      }
      NoChunkNoChecks(jobs, read, job.spec);
    }
  }

  lemma JoinedGrouped(groups: seq<Group>, out: seq<Group>, jobs: seq<Job>, read: seq<seq<CheckView>>, job: Job, rows: seq<CheckView>, g: nat)
    requires |jobs| == |read| && Grouped(groups, jobs, read) && Joins(groups, out, job, rows, g)
    ensures Grouped(out, jobs + [job], read + [rows])
  {
    JoinedDistinct(groups, out, job, rows, g);
    JoinedChecks(groups, out, jobs, read, job, rows, g);
    KeepsGroups(groups, out, jobs, jobs + [job], g);
    GroupsHaveJobs(groups, out, jobs, jobs + [job]);
  }

  method AddChunk(groups: seq<Group>, jobs: seq<Job>, read: seq<seq<CheckView>>, j: nat) returns (out: seq<Group>)
    requires j < |jobs| == |read| && Grouped(groups, jobs[..j], read[..j])
    ensures Grouped(out, jobs[..j + 1], read[..j + 1])
  {
    var g := FindGroup(groups, jobs[j].spec);
    if g < 0 {
      out := groups + [Group(jobs[j].spec, read[j])];
    } else {
      out := groups[g := Group(jobs[j].spec, groups[g].checks + read[j])];
    }
    JoinedGrouped(groups, out, jobs[..j], read[..j], jobs[j], read[j], if g < 0 then |groups| else g);
    assert jobs[..j + 1] == jobs[..j] + [jobs[j]] && read[..j + 1] == read[..j] + [read[j]];
  }

  lemma GroupsHaveJobs(groups: seq<Group>, out: seq<Group>, before: seq<Job>, after: seq<Job>)
    requires |after| == |before| + 1 && after[..|before|] == before
    requires forall k :: 0 <= k < |groups| ==> HasJob(before, groups[k].spec)
    requires forall k :: 0 <= k < |out| ==> out[k].spec == after[|before|].spec || (k < |groups| && out[k].spec == groups[k].spec)
    ensures forall k :: 0 <= k < |out| ==> HasJob(after, out[k].spec)
  {
    forall k | 0 <= k < |out| ensures HasJob(after, out[k].spec) {
      if out[k].spec != after[|before|].spec {
        assert HasJob(before, groups[k].spec);
        var i :| 0 <= i < |before| && before[i].spec == groups[k].spec;
        assert after[i].spec == out[k].spec;
      }
    }
  }

  lemma KeepsGroups(groups: seq<Group>, out: seq<Group>, before: seq<Job>, after: seq<Job>, g: nat)
    requires |groups| <= |out| && forall k :: 0 <= k < |groups| ==> out[k].spec == groups[k].spec
    requires |after| == |before| + 1 && after[..|before|] == before && g < |out| && out[g].spec == after[|before|].spec
    requires forall i :: 0 <= i < |before| ==> HasGroup(groups, before[i].spec)
    ensures forall i :: 0 <= i < |after| ==> HasGroup(out, after[i].spec)
  {
    forall i | 0 <= i < |after| ensures HasGroup(out, after[i].spec) {
      if i < |before| {
        assert HasGroup(groups, before[i].spec) && before[i] == after[i];
        var k :| 0 <= k < |groups| && groups[k].spec == after[i].spec;
        assert out[k].spec == after[i].spec;
      }
    }
  }

  method GroupBySpec(jobs: seq<Job>, read: seq<seq<CheckView>>) returns (groups: seq<Group>)
    requires |jobs| == |read|
    ensures Grouped(groups, jobs, read)
  {
    groups := [];
    for j := 0 to |jobs|
      invariant Grouped(groups, jobs[..j], read[..j])
    {
      groups := AddChunk(groups, jobs, read, j);
    }
    assert jobs[..|jobs|] == jobs && read[..|read|] == read;
  }

  lemma {:induction false} CollectedAreRead(jobs: seq<Job>, read: seq<seq<CheckView>>, spec: Spec, c: CheckView)
    requires |jobs| == |read| && c in ChecksFor(jobs, read, spec)
    ensures exists j :: 0 <= j < |jobs| && jobs[j].spec == spec && c in read[j]
  {
    var n := |jobs| - 1;
    if jobs[n].spec != spec || c !in read[n] {
      CollectedAreRead(jobs[..n], read[..n], spec, c);
      var j :| 0 <= j < n && jobs[..n][j].spec == spec && c in read[..n][j];
      assert jobs[j].spec == spec && c in read[j];
    }
  }

  // ---- the scan ----

  function Specs(icmp: bool, ports: seq<string>): seq<Spec> {
    (if icmp then [Icmp] else []) + seq(|ports|, i requires 0 <= i < |ports| => Port(ports[i]))
  }

  /** ICMP first if it is wanted, then the ports in their order, and nothing else. */
  lemma SpecsByRequest(icmp: bool, ports: seq<string>)
    ensures var specs, first := Specs(icmp, ports), if icmp then 1 else 0;
            && |specs| == first + |ports|
            && (icmp ==> specs[0] == Icmp)
            && (forall i :: 0 <= i < |ports| ==> specs[first + i] == Port(ports[i]))
    ensures Icmp in Specs(icmp, ports) <==> icmp
    ensures forall p :: Port(p) in Specs(icmp, ports) <==> p in ports
  {
    var specs, first := Specs(icmp, ports), if icmp then 1 else 0;
    forall i | 0 <= i < |ports| ensures specs[first + i] == Port(ports[i]) {
    }
    forall p ensures Port(p) in specs <==> p in ports {
      if p in ports {
        var i :| 0 <= i < |ports| && ports[i] == p;
        assert specs[first + i] == Port(p);
      }
      if Port(p) in specs {
        var k :| 0 <= k < |specs| && specs[k] == Port(p);
        assert specs[k] == Port(ports[k - first]);
      }
    }
  }

  function JobsOf(spec: Spec, chunks: seq<seq<string>>): seq<Job> {
    seq(|chunks|, k requires 0 <= k < |chunks| => Job(spec, chunks[k]))
  }

  function FlatJobs(specs: seq<Spec>, chunks: seq<seq<string>>): seq<Job> {
    if specs == [] then [] else FlatJobs(specs[..|specs| - 1], chunks) + JobsOf(specs[|specs| - 1], chunks)
  }

  /** Chunk k of spec i is job i * |chunks| + k. */
  lemma {:induction false} JobAt(specs: seq<Spec>, chunks: seq<seq<string>>, i: nat, k: nat)
    requires i < |specs| && k < |chunks|
    ensures |FlatJobs(specs, chunks)| == |specs| * |chunks|
    ensures i * |chunks| + k < |FlatJobs(specs, chunks)| && FlatJobs(specs, chunks)[i * |chunks| + k] == Job(specs[i], chunks[k])
  {
    var n := |specs| - 1;
    FlatJobsLength(specs[..n], chunks);
    assert |specs| * |chunks| == n * |chunks| + |chunks|;
    if i < n { JobAt(specs[..n], chunks, i, k); }
  }

  lemma {:induction false} FlatJobsLength(specs: seq<Spec>, chunks: seq<seq<string>>)
    ensures |FlatJobs(specs, chunks)| == |specs| * |chunks|
  {
    if specs != [] {
      FlatJobsLength(specs[..|specs| - 1], chunks);
      assert |specs| * |chunks| == (|specs| - 1) * |chunks| + |chunks|;
    }
  }

  /** Row q of chunk k is item k * size + q. */
  lemma {:induction false} ChunkAt<T>(chunks: seq<seq<T>>, items: seq<T>, size: nat, k: nat, q: nat)
    requires IsChunking(chunks, items, size) && k < |chunks| && q < |chunks[k]|
    ensures k * size + q < |items| && chunks[k][q] == items[k * size + q]
  {
    ChunkStarts(chunks, size, k);
  }

  lemma ChunkStarts<T>(chunks: seq<seq<T>>, size: nat, k: nat)
    requires k < |chunks| && forall j :: 0 <= j < |chunks| - 1 ==> |chunks[j]| == size
    ensures |Concat(chunks)| >= k * size + |chunks[k]|
    ensures Concat(chunks)[k * size..k * size + |chunks[k]|] == chunks[k]
  {
    FullLength(chunks[..k], size);
    assert chunks[..k + 1][..k] == chunks[..k];
    assert Concat(chunks[..k + 1]) == Concat(chunks[..k]) + chunks[k];
    ConcatStarts(chunks, k + 1);
  }

  lemma {:induction false} ConcatStarts<T>(chunks: seq<seq<T>>, m: nat)
    requires m <= |chunks|
    ensures Concat(chunks[..m]) <= Concat(chunks)
  {
    if m == |chunks| {
      assert chunks[..m] == chunks;
    } else {
      var n := |chunks| - 1;
      assert chunks[..n][..m] == chunks[..m];
      ConcatStarts(chunks[..n], m);
    }
  }

  lemma {:induction false} FullLength<T>(chunks: seq<seq<T>>, size: nat)
    requires forall j :: 0 <= j < |chunks| ==> |chunks[j]| == size
    ensures |Concat(chunks)| == |chunks| * size
  {
    if chunks != [] {
      FullLength(chunks[..|chunks| - 1], size);
      assert |chunks| * size == (|chunks| - 1) * size + size;
    }
  }

  /** Every spec gets all targets, chunk by chunk. */
  ghost predicate IsDispatch(jobs: seq<Job>, specs: seq<Spec>, targets: seq<string>) {
    exists chunks :: IsChunking(chunks, targets, 200) && jobs == FlatJobs(specs, chunks)
  }

  lemma {:induction false} FlatJobsNonEmpty(specs: seq<Spec>, chunks: seq<seq<string>>)
    requires forall k :: 0 <= k < |chunks| ==> |chunks[k]| > 0
    ensures forall j :: 0 <= j < |FlatJobs(specs, chunks)| ==> |FlatJobs(specs, chunks)[j].targets| > 0
  {
    if specs != [] { FlatJobsNonEmpty(specs[..|specs| - 1], chunks); }
  }

  method Dispatch(targets: seq<string>, specs: seq<Spec>) returns (jobs: seq<Job>)
    ensures IsDispatch(jobs, specs, targets)
    ensures forall j :: 0 <= j < |jobs| ==> |jobs[j].targets| > 0
  {
    var chunks := ChunkTargets(targets, CHUNK);
    jobs := [];
    for i := 0 to |specs|
      invariant jobs == FlatJobs(specs[..i], chunks)
    {
      assert specs[..i + 1][..i] == specs[..i];
      for k := 0 to |chunks|
        invariant jobs == FlatJobs(specs[..i], chunks) + JobsOf(specs[i], chunks)[..k]
      {
        jobs := jobs + [Job(specs[i], chunks[k])];
      }
      assert JobsOf(specs[i], chunks)[..|chunks|] == JobsOf(specs[i], chunks);
    }
    assert specs[..|specs|] == specs;
    FlatJobsNonEmpty(specs, chunks);
  }

  method FetchAllChecks(world: World, at: Clock, r: nat, jobs: seq<Job>) returns (read: seq<seq<CheckView>>)
    requires Stable(world, jobs)
    ensures Round(read, world, at, r, jobs)
  {
    read := [];
    for j := 0 to |jobs|
      invariant |read| == j && forall k :: 0 <= k < j ==> ReadIn(read[k], world, at, r, k, |jobs[k].targets|)
    {
      forall t ensures |world(j, t)| == |jobs[j].targets| {
        assert Successor(world(j, t), world(j, t), |jobs[j].targets|);
      }
      var rows := FetchChunkChecks(world, at, r, j, |jobs[j].targets|);
      read := read + [rows];
    }
  }

  /** Progress never goes back and never exceeds the total, which does not change. */
  predicate Monotone(progress: seq<Progress>) {
    && (forall a :: 0 <= a < |progress| ==> progress[a].done <= progress[a].total)
    && (forall a, b :: 0 <= a < b < |progress| ==> progress[a].done <= progress[b].done && progress[a].total == progress[b].total)
  }

  lemma MonotoneMore(progress: seq<Progress>, p: Progress)
    requires Monotone(progress) && p.done <= p.total
    requires progress != [] ==> progress[|progress| - 1].done <= p.done && progress[|progress| - 1].total == p.total
    ensures Monotone(progress + [p])
  {
  }

  /** Entry `a` is what round `a` found. */
  ghost predicate AllShown(progress: seq<Progress>, world: World, at: Clock, jobs: seq<Job>) {
    forall a :: 0 <= a < |progress| ==> ShowsRound(progress[a], world, at, a, jobs)
  }

  lemma AllShownMore(progress: seq<Progress>, p: Progress, world: World, at: Clock, jobs: seq<Job>)
    requires AllShown(progress, world, at, jobs) && ShowsRound(p, world, at, |progress|, jobs)
    ensures AllShown(progress + [p], world, at, jobs)
  {
  }

  /** Every earlier round found something open, within half an hour of the start. */
  predicate KeptGoing(progress: seq<Progress>, elapsed: nat -> nat, rounds: nat) {
    rounds <= |progress| && forall a :: 0 <= a < rounds ==> progress[a].done < progress[a].total && elapsed(a) <= 1_800_000
  }

  lemma KeptGoingMore(progress: seq<Progress>, p: Progress, elapsed: nat -> nat, rounds: nat)
    requires |progress| == rounds + 1 && KeptGoing(progress, elapsed, rounds)
    requires progress[rounds].done < progress[rounds].total && elapsed(rounds) <= 1_800_000
    ensures KeptGoing(progress + [p], elapsed, rounds + 1)
  {
  }

  /** The progress shown so far. */
  ghost predicate Log(progress: seq<Progress>, world: World, at: Clock, jobs: seq<Job>, elapsed: nat -> nat, rounds: nat) {
    |progress| == rounds + 1 && Monotone(progress) && AllShown(progress, world, at, jobs) && KeptGoing(progress, elapsed, rounds)
  }

  lemma LogMore(progress: seq<Progress>, p: Progress, world: World, at: Clock, jobs: seq<Job>, elapsed: nat -> nat, rounds: nat)
    requires Log(progress, world, at, jobs, elapsed, rounds) && ShowsRound(p, world, at, rounds + 1, jobs)
    requires progress[rounds].done < progress[rounds].total && elapsed(rounds) <= 1_800_000
    requires progress[rounds].done <= p.done <= p.total == progress[rounds].total
    ensures Log(progress + [p], world, at, jobs, elapsed, rounds + 1)
  {
    KeptGoingMore(progress, p, elapsed, rounds);
    MonotoneMore(progress, p);
    AllShownMore(progress, p, world, at, jobs);
  }

  /** The round after the one that found `before`. */
  method NextProgress(world: World, at: Clock, r: nat, jobs: seq<Job>, ghost before: seq<seq<CheckView>>) returns (p: Progress, ghost seen: seq<seq<CheckView>>)
    requires Stable(world, jobs) && RoundsInOrder(at) && forall j :: 0 <= j < |jobs| ==> |jobs[j].targets| > 0
    requires r > 0 && Round(before, world, at, r - 1, jobs)
    ensures Round(seen, world, at, r, jobs) && ShowsRound(p, world, at, r, jobs)
    ensures p == Progress(Sum(Counts(seen)), Sum(Sizes(jobs))) && Sum(Counts(before)) <= p.done <= p.total
  {
    p, seen := FetchProgress(world, at, r, jobs);
    LaterReadSettlesMore(world, at, r - 1, r, jobs, before, seen);
    DoneAtMostTotal(jobs, seen);
  }

  /** Every round takes at least the sleep before it. */
  ghost predicate Sleeps(elapsed: nat -> nat) {
    forall r: nat :: elapsed(r) + POLL_INTERVAL_MS <= elapsed(r + 1)
  }

  /** Polls until everything is over or the ceiling is hit. `elapsed(r)` is the time on the
      clock after round r, at least one sleep later than after round r - 1. */
  method PollProgress(world: World, at: Clock, jobs: seq<Job>, elapsed: nat -> nat)
      returns (progress: seq<Progress>, rounds: nat, ceilingHit: bool, ghost seen: seq<seq<CheckView>>)
    requires Stable(world, jobs) && RoundsInOrder(at)
    requires forall j :: 0 <= j < |jobs| ==> |jobs[j].targets| > 0
    requires Sleeps(elapsed)
    ensures Log(progress, world, at, jobs, elapsed, rounds) && Round(seen, world, at, rounds, jobs)
    ensures !ceilingHit ==> Sum(Counts(seen)) >= Sum(Sizes(jobs))
    ensures ceilingHit ==> elapsed(rounds) > 1_800_000
  {
    rounds := 0;
    var p;
    p, seen := FetchProgress(world, at, 0, jobs);
    DoneAtMostTotal(jobs, seen);
    progress := [p];
    while true
      invariant Log(progress, world, at, jobs, elapsed, rounds) && progress[rounds] == p
      invariant Round(seen, world, at, rounds, jobs) && p == Progress(Sum(Counts(seen)), Sum(Sizes(jobs)))
      decreases CEILING_MS + POLL_INTERVAL_MS - elapsed(rounds)
    {
      if p.total == 0 || p.done >= p.total { return progress, rounds, false, seen; }
      if elapsed(rounds) > CEILING_MS { return progress, rounds, true, seen; }
      var next;
      next, seen := NextProgress(world, at, rounds + 1, jobs, seen);
      LogMore(progress, next, world, at, jobs, elapsed, rounds);
      progress, p, rounds := progress + [next], next, rounds + 1;
    }
  }

  ghost predicate AllOver(groups: seq<Group>) {
    forall g, c :: 0 <= g < |groups| && c in groups[g].checks ==> c.status != Pending && c.status != Running
  }

  /** After a round that found everything over, a later read finds no open check in any group. */
  lemma NothingOpen(world: World, at: Clock, r: nat, jobs: seq<Job>, seen: seq<seq<CheckView>>, read: seq<seq<CheckView>>, groups: seq<Group>)
    requires Stable(world, jobs) && RoundsInOrder(at)
    requires Round(seen, world, at, r, jobs) && Round(read, world, at, r + 1, jobs)
    requires Sum(Counts(seen)) >= Sum(Sizes(jobs)) && Grouped(groups, jobs, read)
    ensures AllOver(groups)
  {
    LaterReadSettlesMore(world, at, r, r + 1, jobs, seen, read);
    AllSettled(jobs, seen);
    forall g, c | 0 <= g < |groups| && c in groups[g].checks ensures c.status != Pending && c.status != Running {
      CollectedAreRead(jobs, read, groups[g].spec, c);
      var j :| 0 <= j < |jobs| && c in read[j];
      assert SettlesMore(seen[j], read[j]);
      var p :| 0 <= p < |read[j]| && read[j][p] == c;
      assert !StillPending(seen[j][p]);
    }
  }

  lemma NothingWaiting(groups: seq<Group>, target: string, nodeId: Id)
    requires AllOver(groups)
    ensures !AnyWaiting(groups, target, nodeId)
  {
    forall g | 0 <= g < |groups| ensures !Waiting(groups[g], target, nodeId) {
      var c := FindCheck(groups[g].checks, target);
      if c.Some? { assert c.value in groups[g].checks; }
    }
  }

  // ---- every target is found again ----

  lemma {:induction false} InSomeChunk(chunks: seq<seq<string>>, x: string) returns (k: nat)
    requires x in Concat(chunks)
    ensures k < |chunks| && x in chunks[k]
  {
    k := |chunks| - 1;
    if x !in chunks[k] { k := InSomeChunk(chunks[..k], x); }
  }

  lemma {:induction false} JobInFlat(specs: seq<Spec>, chunks: seq<seq<string>>, i: nat, k: nat)
    requires i < |specs| && k < |chunks|
    ensures Job(specs[i], chunks[k]) in FlatJobs(specs, chunks)
  {
    var n := |specs| - 1;
    if i < n {
      JobInFlat(specs[..n], chunks, i, k);
    } else {
      assert JobsOf(specs[n], chunks)[k] == Job(specs[i], chunks[k]);
    }
  }

  lemma {:induction false} ReadIsCollected(jobs: seq<Job>, read: seq<seq<CheckView>>, j: nat, c: CheckView)
    requires j < |jobs| == |read| && c in read[j]
    ensures c in ChecksFor(jobs, read, jobs[j].spec)
  {
    var n := |jobs| - 1;
    if j < n { ReadIsCollected(jobs[..n], read[..n], j, c); }
  }

  lemma ReadNames(world: World, at: Clock, r: nat, jobs: seq<Job>, j: nat, rows: seq<CheckView>)
    requires Stable(world, jobs) && j < |jobs| && ReadIn(rows, world, at, r, j, |jobs[j].targets|)
    ensures multiset(Names(rows)) == multiset(jobs[j].targets)
  {
    var start := world(j, 0);
    assert Successor(start, start, |jobs[j].targets|);
    forall p | 0 <= p < |rows| ensures rows[p].target == start[p].target {
      assert Successor(start, world(j, at(r, j, p / CHUNK)), |jobs[j].targets|);
    }
    assert Names(rows) == Names(start);
  }

  lemma TargetRead(world: World, at: Clock, r: nat, jobs: seq<Job>, j: nat, rows: seq<CheckView>, x: string) returns (c: CheckView)
    requires Stable(world, jobs) && j < |jobs| && ReadIn(rows, world, at, r, j, |jobs[j].targets|) && x in jobs[j].targets
    ensures c in rows && c.target == x
  {
    ReadNames(world, at, r, jobs, j, rows);
    assert x in multiset(jobs[j].targets);
    assert x in multiset(Names(rows));
    var p :| 0 <= p < |Names(rows)| && Names(rows)[p] == x;
    c := rows[p];
  }

  /** The groups hold what one full read of every chunk, in round `r`, found. */
  ghost predicate ReadAfter(groups: seq<Group>, world: World, at: Clock, r: nat, jobs: seq<Job>) {
    exists read :: Round(read, world, at, r, jobs) && Grouped(groups, jobs, read)
  }

  /** Every spec has its group, and in it every target its check. */
  ghost predicate FindsAll(groups: seq<Group>, specs: seq<Spec>, targets: seq<string>) {
    forall s :: s in specs ==> HasGroup(groups, s) && forall g, i :: 0 <= g < |groups| && groups[g].spec == s && 0 <= i < |targets| ==>
      FindCheck(groups[g].checks, targets[i]).Some?
  }

  lemma TargetFound(groups: seq<Group>, world: World, at: Clock, r: nat, jobs: seq<Job>, read: seq<seq<CheckView>>, j: nat, g: nat, x: string)
    requires Stable(world, jobs) && Round(read, world, at, r, jobs) && Grouped(groups, jobs, read)
    requires j < |jobs| && g < |groups| && groups[g].spec == jobs[j].spec && x in jobs[j].targets
    ensures FindCheck(groups[g].checks, x).Some?
  {
    var c := TargetRead(world, at, r, jobs, j, read[j], x);
    ReadIsCollected(jobs, read, j, c);
    var k :| 0 <= k < |groups[g].checks| && groups[g].checks[k] == c;
  }

  lemma ScanFindsAll(groups: seq<Group>, world: World, at: Clock, r: nat, jobs: seq<Job>, specs: seq<Spec>, targets: seq<string>)
    requires Stable(world, jobs) && ReadAfter(groups, world, at, r, jobs) && IsDispatch(jobs, specs, targets) && targets != []
    ensures FindsAll(groups, specs, targets)
  {
    var read :| Round(read, world, at, r, jobs) && Grouped(groups, jobs, read);
    var chunks :| IsChunking(chunks, targets, 200) && jobs == FlatJobs(specs, chunks);
    forall s | s in specs ensures HasGroup(groups, s) {
      var j := DispatchedJob(specs, chunks, s, targets[0]);
      assert HasGroup(groups, jobs[j].spec);
    }
    forall s, g, i | s in specs && 0 <= g < |groups| && groups[g].spec == s && 0 <= i < |targets| ensures FindCheck(groups[g].checks, targets[i]).Some? {
      var j := DispatchedJob(specs, chunks, s, targets[i]);
      TargetFound(groups, world, at, r, jobs, read, j, g, targets[i]);
    }
  }

  lemma DispatchedJob(specs: seq<Spec>, chunks: seq<seq<string>>, s: Spec, x: string) returns (j: nat)
    requires s in specs && x in Concat(chunks)
    ensures j < |FlatJobs(specs, chunks)| && FlatJobs(specs, chunks)[j].spec == s && x in FlatJobs(specs, chunks)[j].targets
  {
    var i :| 0 <= i < |specs| && specs[i] == s;
    var k := InSomeChunk(chunks, x);
    JobInFlat(specs, chunks, i, k);
    j :| 0 <= j < |FlatJobs(specs, chunks)| && FlatJobs(specs, chunks)[j] == Job(s, chunks[k]);
  }

  lemma OnlyDispatched(groups: seq<Group>, jobs: seq<Job>, read: seq<seq<CheckView>>, specs: seq<Spec>, targets: seq<string>)
    requires |jobs| == |read| && Grouped(groups, jobs, read) && IsDispatch(jobs, specs, targets)
    ensures forall g :: 0 <= g < |groups| ==> groups[g].spec in specs
  {
    var chunks :| IsChunking(chunks, targets, 200) && jobs == FlatJobs(specs, chunks);
    forall g | 0 <= g < |groups| ensures groups[g].spec in specs {
      assert HasJob(jobs, groups[g].spec);
      FlatJobsOf(specs, chunks);
    }
  }

  lemma {:induction false} FlatJobsOf(specs: seq<Spec>, chunks: seq<seq<string>>)
    ensures forall j :: 0 <= j < |FlatJobs(specs, chunks)| ==> FlatJobs(specs, chunks)[j].spec in specs
  {
    if specs != [] { FlatJobsOf(specs[..|specs| - 1], chunks); }
  }

  /** A row shows every port that was asked for and nothing that was not; it is good exactly when a
      port is open or the ping was answered; and only the final attempt shows a timeout. */
  predicate RowCovers(row: Row, icmp: bool, ports: seq<string>, final: bool) {
    && (forall p :: p in ports ==> Port(p) in row.fields)
    && (forall s :: s in row.fields ==> if s.Icmp? then icmp else s.port in ports)
    && (row.status <==> exists s :: s in row.fields && (row.fields[s] == PortOpen || row.fields[s] == Replied(true)))
    && (forall s :: s in row.fields ==> row.fields[s] != PortAwaited && row.fields[s] != StillRunning)
    && (!final ==> forall s :: s in row.fields ==> row.fields[s] != PortTimeout && row.fields[s] != NeverReplied)
  }

  lemma ScanRowCovers(row: Row, target: string, nodeId: Id, groups: seq<Group>, final: bool, icmp: bool, ports: seq<string>)
    requires RowFor(row, target, nodeId, groups, final) && !row.pending && DistinctSpecs(groups)
    requires forall g :: 0 <= g < |groups| ==> groups[g].spec in Specs(icmp, ports)
    requires forall s :: s in Specs(icmp, ports) ==> HasGroup(groups, s)
    ensures RowCovers(row, icmp, ports, final)
  {
    SpecsByRequest(icmp, ports);
    RowSummarizes(row, target, nodeId, groups, final);
    forall p | p in ports ensures Port(p) in row.fields {
      assert HasGroup(groups, Port(p));
      var g :| 0 <= g < |groups| && groups[g].spec == Port(p);
      PortShows(row, target, nodeId, groups, final, g);
    }
    forall s | s in row.fields
      ensures if s.Icmp? then icmp else s.port in ports
      ensures !final ==> row.fields[s] != PortTimeout && row.fields[s] != NeverReplied
    {
      var g :| 0 <= g < |groups| && groups[g].spec == s;
      if s.Port? {
        PortShows(row, target, nodeId, groups, final, g);
        assert s == Port(s.port);
      } else {
        IcmpShows(row, target, nodeId, groups, final, g);
      }
    }
  }

  lemma ScanRowsCover(rows: seq<Row>, targets: seq<string>, nodeId: Id, groups: seq<Group>, final: bool, icmp: bool, ports: seq<string>)
    requires |rows| == |targets| && forall i :: 0 <= i < |rows| ==> RowFor(rows[i], targets[i], nodeId, groups, final) && !rows[i].pending
    requires DistinctSpecs(groups) && forall g :: 0 <= g < |groups| ==> groups[g].spec in Specs(icmp, ports)
    requires FindsAll(groups, Specs(icmp, ports), targets)
    ensures forall i :: 0 <= i < |rows| ==> RowCovers(rows[i], icmp, ports, final)
  {
    forall i | 0 <= i < |rows| ensures RowCovers(rows[i], icmp, ports, final) {
      ScanRowCovers(rows[i], targets[i], nodeId, groups, final, icmp, ports);
    }
  }

  /** The last full read and the merge; as the final attempt when the ceiling was hit. */
  method FinishScan(targets: seq<string>, nodeId: Id, ghost specs: seq<Spec>, jobs: seq<Job>, world: World, at: Clock, rounds: nat, ceilingHit: bool, ghost seen: seq<seq<CheckView>>)
      returns (rows: seq<Row>, ghost groups: seq<Group>)
    requires Stable(world, jobs) && RoundsInOrder(at) && Round(seen, world, at, rounds, jobs)
    requires !ceilingHit ==> Sum(Counts(seen)) >= Sum(Sizes(jobs))
    requires IsDispatch(jobs, specs, targets) && targets != []
    ensures |rows| == |targets|
    ensures forall i :: 0 <= i < |rows| ==> RowFor(rows[i], targets[i], nodeId, groups, ceilingHit) && !rows[i].pending
    ensures ReadAfter(groups, world, at, rounds + 1, jobs) && FindsAll(groups, specs, targets) && (!ceilingHit ==> AllOver(groups))
    ensures DistinctSpecs(groups) && forall g :: 0 <= g < |groups| ==> groups[g].spec in specs
  {
    var read := FetchAllChecks(world, at, rounds + 1, jobs);
    var gs := GroupBySpec(jobs, read);
    groups := gs;
    rows := MergeNodeResults(targets, nodeId, gs, ceilingHit);
    ScanFindsAll(gs, world, at, rounds + 1, jobs, specs, targets);
    OnlyDispatched(gs, jobs, read, specs, targets);
    if !ceilingHit { NothingOpen(world, at, rounds, jobs, seen, read, gs); }
    forall i | 0 <= i < |rows| ensures !rows[i].pending {
      if !ceilingHit { NothingWaiting(gs, targets[i], nodeId); }
      assert RowFor(rows[i], targets[i], nodeId, groups, ceilingHit);
    }
  }

  /** The server lists the dispatched chunks as `Stable` says. */
  ghost predicate Serves(world: World, specs: seq<Spec>, targets: seq<string>) {
    forall jobs :: IsDispatch(jobs, specs, targets) ==> Stable(world, jobs)
  }

  /** The scan of some specs and targets, of which there are some. */
  method TrackScan(targets: seq<string>, nodeId: Id, specs: seq<Spec>, world: World, at: Clock, elapsed: nat -> nat)
      returns (rows: seq<Row>, progress: seq<Progress>, ghost jobs: seq<Job>, ghost groups: seq<Group>, ghost final: bool)
    requires targets != [] && RoundsInOrder(at) && Sleeps(elapsed)
    requires Serves(world, specs, targets)
    ensures |rows| == |targets|
    ensures forall i :: 0 <= i < |rows| ==> RowFor(rows[i], targets[i], nodeId, groups, final) && !rows[i].pending
    ensures IsDispatch(jobs, specs, targets) && |progress| > 0
    ensures ReadAfter(groups, world, at, |progress|, jobs) && FindsAll(groups, specs, targets)
    ensures if final then elapsed(|progress| - 1) > 1_800_000 else AllOver(groups)
    ensures Log(progress, world, at, jobs, elapsed, |progress| - 1)
    ensures DistinctSpecs(groups) && forall g :: 0 <= g < |groups| ==> groups[g].spec in specs
  {
    var chunks := Dispatch(targets, specs);
    var rounds, ceilingHit;
    ghost var seen;
    progress, rounds, ceilingHit, seen := PollProgress(world, at, chunks, elapsed);
    jobs, final := chunks, ceilingHit;
    rows, groups := FinishScan(targets, nodeId, specs, chunks, world, at, rounds, ceilingHit, seen);
  }

  /** A scan ends with exactly one row per target, in target order, and never a pending row. The
      rows are built from a full read after the last progress round, in which every row finds its
      check for every spec; short of the ceiling all of those are over, and only past it is this
      a final attempt. The progress shown is what each round found. */
  method RunTrackedNodeScan(targets: seq<string>, nodeId: Id, icmp: bool, ports: seq<string>, world: World, at: Clock, elapsed: nat -> nat)
      returns (rows: seq<Row>, progress: seq<Progress>, ghost jobs: seq<Job>, ghost groups: seq<Group>, ghost final: bool)
    requires RoundsInOrder(at) && Sleeps(elapsed)
    requires Serves(world, Specs(icmp, ports), targets)
    ensures !icmp && ports == [] ==> rows == [] && progress == []
    ensures icmp || ports != [] ==> |rows| == |targets|
    ensures forall i :: 0 <= i < |rows| ==> RowFor(rows[i], targets[i], nodeId, groups, final) && !rows[i].pending
    ensures forall i :: 0 <= i < |rows| ==> RowCovers(rows[i], icmp, ports, final)
    ensures (icmp || ports != []) && targets != [] ==>
              && IsDispatch(jobs, Specs(icmp, ports), targets) && |progress| > 0
              && ReadAfter(groups, world, at, |progress|, jobs)
              && FindsAll(groups, Specs(icmp, ports), targets)
              && (if final then elapsed(|progress| - 1) > 1_800_000 else AllOver(groups))
              && Log(progress, world, at, jobs, elapsed, |progress| - 1)
  {
    var specs := Specs(icmp, ports);
    if |specs| == 0 || |targets| == 0 { return [], [], [], [], false; }
    rows, progress, jobs, groups, final := TrackScan(targets, nodeId, specs, world, at, elapsed);
    ScanRowsCover(rows, targets, nodeId, groups, final, icmp, ports);
  }
}
