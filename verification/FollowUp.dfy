/** The two passes of an ordinary ping: the first waits for a fixed time and hands back what is
    still open, the second waits again for exactly that and then gives up for good. */
module FollowUp {
  import opened Records
  import opened Merge
  import Scan
  import Targets

  const NODE_POLL_INTERVAL_MS := 2000
  const NODE_POLL_TIMEOUT_MS := 100_000

  /** One check as successive reads of it show it, and the clock after each read. */
  type View = nat -> CheckView
  type Elapsed = nat -> nat

  ghost predicate Sleeps(elapsed: Elapsed) {
    forall k: nat :: elapsed(k) + NODE_POLL_INTERVAL_MS <= elapsed(k + 1)
  }

  /** `check` is what the first read that shows it over, or comes after the deadline, shows. */
  ghost predicate Polled(check: CheckView, view: View, timeoutMs: nat, elapsed: Elapsed, k: nat) {
    && check == view(k)
    && (check.status == Pending || check.status == Running ==> elapsed(k) > timeoutMs)
    && (forall l: nat :: l < k ==> (view(l).status == Pending || view(l).status == Running) && elapsed(l) <= timeoutMs)
  }

  method PollCheckUntilDone(view: View, timeoutMs: nat, elapsed: Elapsed) returns (check: CheckView)
    requires Sleeps(elapsed)
    ensures exists k: nat :: Polled(check, view, timeoutMs, elapsed, k)
  {
    var n := 0;
    while true
      invariant forall l: nat :: l < n ==> StillPending(view(l)) && elapsed(l) <= timeoutMs
      decreases timeoutMs + NODE_POLL_INTERVAL_MS - elapsed(n)
    {
      check := view(n);
      if !StillPending(check) || elapsed(n) > timeoutMs {
        assert Polled(check, view, timeoutMs, elapsed, n);
        return;
      }
      n := n + 1;
    }
  }

  datatype PendingCheck = PendingCheck(spec: Spec, checkId: Id, target: string)

  /** The open checks of one group, in order. */
  function OpenOf(spec: Spec, checks: seq<CheckView>): seq<PendingCheck> {
    if checks == [] then []
    else
      var n := |checks| - 1;
      OpenOf(spec, checks[..n]) + if StillPending(checks[n]) then [PendingCheck(spec, checks[n].id, checks[n].target)] else []
  }

  function PendingOf(groups: seq<Group>): seq<PendingCheck> {
    if groups == [] then []
    else PendingOf(groups[..|groups| - 1]) + OpenOf(groups[|groups| - 1].spec, groups[|groups| - 1].checks)
  }

  /** An item is an open check of one of the groups, and every open check has its item. */
  lemma {:induction false} OpenOfMembers(spec: Spec, checks: seq<CheckView>, item: PendingCheck)
    ensures item in OpenOf(spec, checks) <==>
              exists i :: 0 <= i < |checks| && StillPending(checks[i]) && item == PendingCheck(spec, checks[i].id, checks[i].target)
  {
    if checks != [] {
      var n := |checks| - 1;
      OpenOfMembers(spec, checks[..n], item);
      if i :| 0 <= i < n && StillPending(checks[..n][i]) && item == PendingCheck(spec, checks[..n][i].id, checks[..n][i].target) {
        assert StillPending(checks[i]) && item == PendingCheck(spec, checks[i].id, checks[i].target);
      }
      if i :| 0 <= i < |checks| && StillPending(checks[i]) && item == PendingCheck(spec, checks[i].id, checks[i].target) {
        if i < n { assert checks[..n][i] == checks[i]; }
      }
    }
  }

  /** The item is a check of the group that is pending or running. */
  predicate OpenIn(g: Group, item: PendingCheck) {
    exists i :: 0 <= i < |g.checks| && (g.checks[i].status == Pending || g.checks[i].status == Running)
                && item == PendingCheck(g.spec, g.checks[i].id, g.checks[i].target)
  }

  lemma {:induction false} PendingHas(groups: seq<Group>, g: nat, item: PendingCheck)
    requires g < |groups| && OpenIn(groups[g], item)
    ensures item in PendingOf(groups)
  {
    var n := |groups| - 1;
    OpenOfMembers(groups[n].spec, groups[n].checks, item);
    if g < n { PendingHas(groups[..n], g, item); }
  }

  lemma {:induction false} PendingFrom(groups: seq<Group>, item: PendingCheck) returns (g: nat)
    requires item in PendingOf(groups)
    ensures g < |groups| && OpenIn(groups[g], item)
  {
    g := |groups| - 1;
    OpenOfMembers(groups[g].spec, groups[g].checks, item);
    if item !in OpenOf(groups[g].spec, groups[g].checks) {
      g := PendingFrom(groups[..g], item);
    }
  }

  lemma PendingOfMembers(groups: seq<Group>, item: PendingCheck)
    ensures item in PendingOf(groups) <==> exists g :: 0 <= g < |groups| && OpenIn(groups[g], item)
  {
    if item in PendingOf(groups) {
      var g := PendingFrom(groups, item);
    }
    if g :| 0 <= g < |groups| && OpenIn(groups[g], item) {
      PendingHas(groups, g, item);
    }
  }

  method CollectPending(groups: seq<Group>) returns (items: seq<PendingCheck>)
    ensures items == PendingOf(groups)
  {
    items := [];
    for g := 0 to |groups|
      invariant items == PendingOf(groups[..g])
    {
      assert groups[..g + 1][..g] == groups[..g];
      var checks := groups[g].checks;
      for i := 0 to |checks|
        invariant items == PendingOf(groups[..g]) + OpenOf(groups[g].spec, checks[..i])
      {
        assert checks[..i + 1][..i] == checks[..i];
        if StillPending(checks[i]) {
          items := items + [PendingCheck(groups[g].spec, checks[i].id, checks[i].target)];
        }
      }
      assert checks[..|checks|] == checks;
    }
    assert groups[..|groups|] == groups;
  }

  function TargetsOf(items: seq<PendingCheck>): seq<string> {
    seq(|items|, i requires 0 <= i < |items| => items[i].target)
  }

  /** A group still waits for a target only through one of its items. */
  lemma WaitingHasItem(groups: seq<Group>, g: nat, target: string, nodeId: Id)
    requires g < |groups| && Waiting(groups[g], target, nodeId)
    ensures target in TargetsOf(PendingOf(groups))
  {
    var check := FindCheck(groups[g].checks, target).value;
    var i :| 0 <= i < |groups[g].checks| && groups[g].checks[i] == check;
    var item := PendingCheck(groups[g].spec, check.id, check.target);
    OpenOfMembers(groups[g].spec, groups[g].checks, item);
    assert OpenIn(groups[g], item);
    PendingOfMembers(groups, item);
    var k :| 0 <= k < |PendingOf(groups)| && PendingOf(groups)[k] == item;
    assert TargetsOf(PendingOf(groups))[k] == target;
  }

  /** The first pass. `ids[g]` are the checks dispatched for spec g. A row shown as pending is
      always one the second pass is asked about. */
  method NodePing(targets: seq<string>, nodeId: Id, icmp: bool, ports: seq<string>,
                  ids: seq<seq<Id>>, view: Id -> View, elapsed: Id -> Elapsed)
      returns (rows: seq<Row>, items: seq<PendingCheck>, ghost groups: seq<Group>)
    requires |ids| == |Scan.Specs(icmp, ports)|
    requires forall id: Id :: Sleeps(elapsed(id))
    ensures !icmp && ports == [] ==> rows == [] && items == []
    ensures icmp || ports != [] ==> |rows| == |targets|
    ensures Scan.SpecsOf(groups) == Scan.Specs(icmp, ports) && items == PendingOf(groups)
    ensures forall g :: 0 <= g < |groups| ==> PolledAll(groups[g].checks, ids[g], view, 100_000, elapsed)
    ensures forall i :: 0 <= i < |rows| ==>
              && RowFor(rows[i], targets[i], nodeId, groups, false)
              && (rows[i].pending ==> targets[i] in Targets.Dedup(TargetsOf(items)))
  {
    var specs := Scan.Specs(icmp, ports);
    var finished: seq<Group> := [];
    for g := 0 to |specs|
      invariant Scan.SpecsOf(finished) == specs[..g]
      invariant forall h :: 0 <= h < g ==> PolledAll(finished[h].checks, ids[h], view, NODE_POLL_TIMEOUT_MS, elapsed)
    {
      var checks := PollAll(ids[g], view, NODE_POLL_TIMEOUT_MS, elapsed);
      finished := finished + [Group(specs[g], checks)];
    }
    groups := finished;
    if |specs| == 0 { return [], [], []; }
    items := CollectPending(finished);
    rows := MergeNodeResults(targets, nodeId, finished, false);
    forall i | 0 <= i < |rows| ensures rows[i].pending ==> targets[i] in Targets.Dedup(TargetsOf(items)) {
      PendingRowHasItem(rows[i], targets[i], nodeId, finished);
    }
  }

  lemma PendingRowHasItem(row: Row, target: string, nodeId: Id, groups: seq<Group>)
    requires RowFor(row, target, nodeId, groups, false)
    ensures row.pending ==> target in Targets.Dedup(TargetsOf(PendingOf(groups)))
  {
    if row.pending {
      var g :| 0 <= g < |groups| && Waiting(groups[g], target, nodeId);
      WaitingHasItem(groups, g, target, nodeId);
      Targets.DedupKeepsFirsts(TargetsOf(PendingOf(groups)));
    }
  }

  ghost predicate PolledAll(checks: seq<CheckView>, ids: seq<Id>, view: Id -> View, timeoutMs: nat, elapsed: Id -> Elapsed) {
    && |checks| == |ids|
    && forall i :: 0 <= i < |ids| ==> PolledOne(checks[i], ids[i], view, timeoutMs, elapsed)
  }

  ghost predicate PolledOne(check: CheckView, id: Id, view: Id -> View, timeoutMs: nat, elapsed: Id -> Elapsed) {
    exists k: nat :: Polled(check, view(id), timeoutMs, elapsed(id), k)
  }

  method PollAll(ids: seq<Id>, view: Id -> View, timeoutMs: nat, elapsed: Id -> Elapsed) returns (checks: seq<CheckView>)
    requires forall id: Id :: Sleeps(elapsed(id))
    ensures PolledAll(checks, ids, view, timeoutMs, elapsed)
  {
    checks := [];
    for i := 0 to |ids|
      invariant |checks| == i && forall j :: 0 <= j < i ==> PolledOne(checks[j], ids[j], view, timeoutMs, elapsed)
    {
      var check := PollCheckUntilDone(view(ids[i]), timeoutMs, elapsed(ids[i]));
      checks := checks + [check];
    }
  }

  function CheckIdsOf(items: seq<PendingCheck>): seq<Id> {
    seq(|items|, i requires 0 <= i < |items| => items[i].checkId)
  }

  /** Each rechecked item is a chunk of its own for the grouping by spec. */
  function ItemJobs(items: seq<PendingCheck>): seq<Scan.Job> {
    seq(|items|, i requires 0 <= i < |items| => Scan.Job(items[i].spec, [items[i].target]))
  }

  function Singles(checks: seq<CheckView>): seq<seq<CheckView>> {
    seq(|checks|, i requires 0 <= i < |checks| => [checks[i]])
  }

  /** The second pass: one final row for every distinct target that was still open, in order of
      first appearance, built from a fresh look at exactly the open checks; none is pending. */
  method AwaitPendingFollowUp(nodeId: Id, items: seq<PendingCheck>, timeoutMs: nat, view: Id -> View, elapsed: Id -> Elapsed)
      returns (rows: seq<Row>, ghost checks: seq<CheckView>, ghost groups: seq<Group>)
    requires forall id: Id :: Sleeps(elapsed(id))
    ensures items == [] ==> rows == []
    ensures PolledAll(checks, CheckIdsOf(items), view, timeoutMs, elapsed) && Scan.Grouped(groups, ItemJobs(items), Singles(checks))
    ensures |rows| == |Targets.Dedup(TargetsOf(items))|
    ensures forall i :: 0 <= i < |rows| ==> RowFor(rows[i], Targets.Dedup(TargetsOf(items))[i], nodeId, groups, true) && !rows[i].pending
  {
    var rechecked := PollAll(CheckIdsOf(items), view, timeoutMs, elapsed);
    var grouped := Scan.GroupBySpec(ItemJobs(items), Singles(rechecked));
    var targets := Targets.Unique(TargetsOf(items));
    rows := MergeNodeResults(targets, nodeId, grouped, true);
    checks, groups := rechecked, grouped;
  }
}
