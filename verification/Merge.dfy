/** How the bot turns the checks of a scan into one row per target. */
module Merge {
  import opened Records

  datatype ResultView = ResultView(success: bool, resolved: Option<string>)
  datatype RunView = RunView(nodeId: Id, result: Option<ResultView>)
  datatype CheckView = CheckView(id: Id, target: string, status: CheckStatus, runs: seq<RunView>)

  /** Equal exactly when their keys "icmp" / "port:N" are. */
  datatype Spec = Icmp | Port(port: string)

  datatype Group = Group(spec: Spec, checks: seq<CheckView>)

  /** What a row shows for one spec. */
  datatype Field = Replied(success: bool) | NeverReplied | StillRunning | PortOpen | PortClosed | PortTimeout | PortAwaited | PortUnknown

  datatype Row = Row(ip: string, resolvedIp: string, status: bool, pending: bool, fields: map<Spec, Field>)

  predicate StillPending(c: CheckView) {
    Open(c.status)
  }

  // ---- Array.find ----

  function FindCheck(checks: seq<CheckView>, target: string): (c: Option<CheckView>)
    ensures c.Some? ==> exists k :: 0 <= k < |checks| && checks[k] == c.value && checks[k].target == target && forall j :: 0 <= j < k ==> checks[j].target != target
    ensures c.None? <==> forall k :: 0 <= k < |checks| ==> checks[k].target != target
  {
    if checks == [] then None
    else if checks[0].target == target then Some(checks[0])
    else
      assert forall k :: 0 < k < |checks| ==> checks[k] == checks[1..][k - 1];
      FindCheck(checks[1..], target)
  }

  function FindRun(runs: seq<RunView>, nodeId: Id): (r: Option<RunView>)
    ensures r.Some? ==> exists k :: 0 <= k < |runs| && runs[k] == r.value && runs[k].nodeId == nodeId && forall j :: 0 <= j < k ==> runs[j].nodeId != nodeId
    ensures r.None? <==> forall k :: 0 <= k < |runs| ==> runs[k].nodeId != nodeId
  {
    if runs == [] then None
    else if runs[0].nodeId == nodeId then Some(runs[0])
    else
      assert forall k :: 0 < k < |runs| ==> runs[k] == runs[1..][k - 1];
      FindRun(runs[1..], nodeId)
  }

  function ResultOf(g: Group, target: string, nodeId: Id): Option<ResultView> {
    match FindCheck(g.checks, target)
    case None => None
    case Some(check) => (match FindRun(check.runs, nodeId) case None => None case Some(run) => run.result)
  }

  /** Check `i` is the group's first for the target and run `j` its first of the node. */
  predicate First(g: Group, target: string, nodeId: Id, i: nat, j: nat) {
    && i < |g.checks| && g.checks[i].target == target && (forall k :: 0 <= k < i ==> g.checks[k].target != target)
    && j < |g.checks[i].runs| && g.checks[i].runs[j].nodeId == nodeId && (forall k :: 0 <= k < j ==> g.checks[i].runs[k].nodeId != nodeId)
  }

  lemma {:induction false} FindsFirst(checks: seq<CheckView>, target: string, i: nat)
    requires i < |checks| && checks[i].target == target && forall k :: 0 <= k < i ==> checks[k].target != target
    ensures FindCheck(checks, target) == Some(checks[i])
  {
    if i > 0 { FindsFirst(checks[1..], target, i - 1); }
  }

  lemma {:induction false} FindsFirstRun(runs: seq<RunView>, nodeId: Id, j: nat)
    requires j < |runs| && runs[j].nodeId == nodeId && forall k :: 0 <= k < j ==> runs[k].nodeId != nodeId
    ensures FindRun(runs, nodeId) == Some(runs[j])
  {
    if j > 0 { FindsFirstRun(runs[1..], nodeId, j - 1); }
  }

  /** The result read is that of the first run of the node in the first check for the target. */
  lemma ResultOfFirst(g: Group, target: string, nodeId: Id)
    ensures forall i: nat, j: nat :: First(g, target, nodeId, i, j) ==> ResultOf(g, target, nodeId) == g.checks[i].runs[j].result
    ensures (forall i: nat, j: nat :: !First(g, target, nodeId, i, j)) ==> ResultOf(g, target, nodeId) == None
  {
    forall i: nat, j: nat | First(g, target, nodeId, i, j) ensures ResultOf(g, target, nodeId) == g.checks[i].runs[j].result {
      FindsFirst(g.checks, target, i);
      FindsFirstRun(g.checks[i].runs, nodeId, j);
    }
    var check := FindCheck(g.checks, target);
    if check.Some? {
      var i :| 0 <= i < |g.checks| && g.checks[i] == check.value && g.checks[i].target == target && forall k :: 0 <= k < i ==> g.checks[k].target != target;
      var run := FindRun(check.value.runs, nodeId);
      if run.Some? {
        var runs := check.value.runs;
        var j :| 0 <= j < |runs| && runs[j] == run.value && runs[j].nodeId == nodeId && forall k :: 0 <= k < j ==> runs[k].nodeId != nodeId;
        assert First(g, target, nodeId, i, j);
      }
    }
  }

  /** The group's check for the target is open and has no result from the node yet. */
  predicate Waiting(g: Group, target: string, nodeId: Id) {
    && ResultOf(g, target, nodeId) == None
    && FindCheck(g.checks, target).Some? && StillPending(FindCheck(g.checks, target).value)
  }

  predicate Succeeded(g: Group, target: string, nodeId: Id) {
    ResultOf(g, target, nodeId).Some? && ResultOf(g, target, nodeId).value.success
  }

  function Shown(g: Group, target: string, nodeId: Id, final: bool): Option<Field> {
    match ResultOf(g, target, nodeId)
    case Some(result) => Some(if g.spec.Icmp? then Replied(result.success) else if result.success then PortOpen else PortClosed)
    case None =>
      if !Waiting(g, target, nodeId) then (if g.spec.Icmp? then None else Some(PortUnknown))
      else if final then Some(if g.spec.Icmp? then NeverReplied else PortTimeout)
      else Some(if g.spec.Icmp? then StillRunning else PortAwaited)
  }

  predicate DistinctSpecs(groups: seq<Group>) {
    forall i, j :: 0 <= i < j < |groups| ==> groups[i].spec != groups[j].spec
  }

  predicate AnyWaiting(groups: seq<Group>, target: string, nodeId: Id) {
    exists k :: 0 <= k < |groups| && Waiting(groups[k], target, nodeId)
  }

  predicate AnySucceeded(groups: seq<Group>, target: string, nodeId: Id) {
    exists k :: 0 <= k < |groups| && Succeeded(groups[k], target, nodeId)
  }

  /** The address the last answering group resolved the target to, if any. */
  function Resolved(groups: seq<Group>, target: string, nodeId: Id): string {
    if groups == [] then target
    else
      match ResultOf(groups[|groups| - 1], target, nodeId)
      case Some(result) => if result.resolved.Some? then result.resolved.value else Resolved(groups[..|groups| - 1], target, nodeId)
      case None => Resolved(groups[..|groups| - 1], target, nodeId)
  }

  /** Every shown field belongs to a group, and with distinct specs each group shows its own state. */
  ghost predicate FieldsFor(fields: map<Spec, Field>, groups: seq<Group>, target: string, nodeId: Id, final: bool) {
    && (forall s :: s in fields ==> exists k :: 0 <= k < |groups| && groups[k].spec == s)
    && (DistinctSpecs(groups) ==> forall k :: 0 <= k < |groups| ==> Shows(fields, groups[k], target, nodeId, final))
  }

  predicate Shows(fields: map<Spec, Field>, g: Group, target: string, nodeId: Id, final: bool) {
    match Shown(g, target, nodeId, final)
    case None => g.spec !in fields
    case Some(f) => g.spec in fields && fields[g.spec] == f
  }

  /** A row is pending when some spec is still awaited and this is not the last attempt, good
      when some spec succeeded, and shows each spec's own state. */
  ghost predicate RowFor(row: Row, target: string, nodeId: Id, groups: seq<Group>, final: bool) {
    && row.ip == target
    && row.pending == (!final && AnyWaiting(groups, target, nodeId))
    && row.status == AnySucceeded(groups, target, nodeId)
    && row.resolvedIp == Resolved(groups, target, nodeId)
    && FieldsFor(row.fields, groups, target, nodeId, final)
  }

  // ---- the same, field by field ----

  /** A port shows open exactly if the node's result is there and succeeded, closed exactly if it
      is there and failed; without one it times out or is awaited while its check is pending or
      running, by whether this is the last attempt, and is unknown otherwise. */
  lemma PortShows(row: Row, target: string, nodeId: Id, groups: seq<Group>, final: bool, k: nat)
    requires RowFor(row, target, nodeId, groups, final) && DistinctSpecs(groups) && k < |groups| && groups[k].spec.Port?
    ensures var g := groups[k];
            && g.spec in row.fields
            && var shown, result, check := row.fields[g.spec], ResultOf(g, target, nodeId), FindCheck(g.checks, target);
               var open := check.Some? && (check.value.status == Pending || check.value.status == Running);
               && (shown == PortOpen <==> result.Some? && result.value.success)
               && (shown == PortClosed <==> result.Some? && !result.value.success)
               && (shown == PortTimeout <==> result.None? && open && final)
               && (shown == PortAwaited <==> result.None? && open && !final)
               && (shown == PortUnknown <==> result.None? && !open)
  {
    assert Shows(row.fields, groups[k], target, nodeId, final);
  }

  /** The ping field repeats the node's result; without one it says that the node never replied or
      is still running while the check is pending or running, and is absent otherwise. */
  lemma IcmpShows(row: Row, target: string, nodeId: Id, groups: seq<Group>, final: bool, k: nat)
    requires RowFor(row, target, nodeId, groups, final) && DistinctSpecs(groups) && k < |groups| && groups[k].spec.Icmp?
    ensures var result, check := ResultOf(groups[k], target, nodeId), FindCheck(groups[k].checks, target);
            var open := check.Some? && (check.value.status == Pending || check.value.status == Running);
            && (Icmp in row.fields <==> result.Some? || open)
            && (Icmp in row.fields ==>
                  && (row.fields[Icmp] == Replied(true) <==> result.Some? && result.value.success)
                  && (row.fields[Icmp] == Replied(false) <==> result.Some? && !result.value.success)
                  && (row.fields[Icmp] == NeverReplied <==> result.None? && final)
                  && (row.fields[Icmp] == StillRunning <==> result.None? && !final))
  {
    assert Shows(row.fields, groups[k], target, nodeId, final);
  }

  predicate Good(f: Field) {
    f == PortOpen || f == Replied(true)
  }

  predicate Awaited(f: Field) {
    f == PortAwaited || f == StillRunning
  }

  /** A field is good exactly if its group's result is a success, and awaited exactly if the group
      still waits and another attempt follows. */
  lemma FieldSays(row: Row, target: string, nodeId: Id, groups: seq<Group>, final: bool, k: nat)
    requires RowFor(row, target, nodeId, groups, final) && DistinctSpecs(groups) && k < |groups|
    ensures (groups[k].spec in row.fields && Good(row.fields[groups[k].spec])) <==> Succeeded(groups[k], target, nodeId)
    ensures (groups[k].spec in row.fields && Awaited(row.fields[groups[k].spec])) <==> Waiting(groups[k], target, nodeId) && !final
  {
    if groups[k].spec.Port? { PortShows(row, target, nodeId, groups, final, k); } else { IcmpShows(row, target, nodeId, groups, final, k); }
  }

  /** With one group a spec, a row is good exactly when one of its fields says open or replied, and
      pending exactly when one says awaited or still running. */
  lemma RowSummarizes(row: Row, target: string, nodeId: Id, groups: seq<Group>, final: bool)
    requires RowFor(row, target, nodeId, groups, final) && DistinctSpecs(groups)
    ensures row.status <==> exists s :: s in row.fields && (row.fields[s] == PortOpen || row.fields[s] == Replied(true))
    ensures row.pending <==> exists s :: s in row.fields && (row.fields[s] == PortAwaited || row.fields[s] == StillRunning)
  {
    forall k | 0 <= k < |groups|
      ensures (groups[k].spec in row.fields && Good(row.fields[groups[k].spec])) <==> Succeeded(groups[k], target, nodeId)
      ensures (groups[k].spec in row.fields && Awaited(row.fields[groups[k].spec])) <==> Waiting(groups[k], target, nodeId) && !final
    {
      FieldSays(row, target, nodeId, groups, final, k);
    }
    if row.status {
      var k :| 0 <= k < |groups| && Succeeded(groups[k], target, nodeId);
      assert Good(row.fields[groups[k].spec]);
    }
    if row.pending {
      var k :| 0 <= k < |groups| && Waiting(groups[k], target, nodeId);
      assert Awaited(row.fields[groups[k].spec]);
    }
    forall s | s in row.fields ensures (Good(row.fields[s]) ==> row.status) && (Awaited(row.fields[s]) ==> row.pending) {
      var k :| 0 <= k < |groups| && groups[k].spec == s;
      assert Good(row.fields[s]) ==> Succeeded(groups[k], target, nodeId);
    }
  }

  /** The address shown is the one the last group with an address in its result gives. */
  lemma {:induction false} ResolvedLast(groups: seq<Group>, target: string, nodeId: Id, k: nat)
    requires k <= |groups|
    requires forall j :: k <= j < |groups| ==> ResultOf(groups[j], target, nodeId).None? || ResultOf(groups[j], target, nodeId).value.resolved.None?
    ensures k == 0 ==> Resolved(groups, target, nodeId) == target
    ensures k > 0 && ResultOf(groups[k - 1], target, nodeId).Some? && ResultOf(groups[k - 1], target, nodeId).value.resolved.Some? ==>
              Resolved(groups, target, nodeId) == ResultOf(groups[k - 1], target, nodeId).value.resolved.value
  {
    if k < |groups| {
      ResolvedLast(groups[..|groups| - 1], target, nodeId, k);
    }
  }

  lemma AnyMore(groups: seq<Group>, g: Group, target: string, nodeId: Id)
    ensures AnyWaiting(groups + [g], target, nodeId) == (AnyWaiting(groups, target, nodeId) || Waiting(g, target, nodeId))
    ensures AnySucceeded(groups + [g], target, nodeId) == (AnySucceeded(groups, target, nodeId) || Succeeded(g, target, nodeId))
  {
    var more := groups + [g];
    assert more[|groups|] == g && forall k :: 0 <= k < |groups| ==> more[k] == groups[k];
    if AnyWaiting(groups, target, nodeId) {
      var k :| 0 <= k < |groups| && Waiting(groups[k], target, nodeId);
      assert Waiting(more[k], target, nodeId);
    }
    if AnySucceeded(groups, target, nodeId) {
      var k :| 0 <= k < |groups| && Succeeded(groups[k], target, nodeId);
      assert Succeeded(more[k], target, nodeId);
    }
  }

  lemma FieldsMore(fields: map<Spec, Field>, groups: seq<Group>, g: Group, target: string, nodeId: Id, final: bool)
    requires FieldsFor(fields, groups, target, nodeId, final)
    ensures var shown := Shown(g, target, nodeId, final);
            FieldsFor(if shown.Some? then fields[g.spec := shown.value] else fields, groups + [g], target, nodeId, final)
  {
    var shown := Shown(g, target, nodeId, final);
    var fields' := if shown.Some? then fields[g.spec := shown.value] else fields;
    var more := groups + [g];
    assert more[|groups|] == g && forall k :: 0 <= k < |groups| ==> more[k] == groups[k];
    forall s | s in fields' ensures exists k :: 0 <= k < |more| && more[k].spec == s {
      if s in fields {
        var k :| 0 <= k < |groups| && groups[k].spec == s;
        assert more[k].spec == s;
      } else {
        assert more[|groups|].spec == s;
      }
    }
    if DistinctSpecs(more) {
      assert DistinctSpecs(groups) && forall k :: 0 <= k < |groups| ==> more[k].spec != more[|groups|].spec;
      forall k | 0 <= k < |more| ensures Shows(fields', more[k], target, nodeId, final) {
        if k < |groups| { assert Shows(fields, groups[k], target, nodeId, final); }
      }
    }
  }

  /** One group's contribution to a row. */
  method MergeGroup(row: Row, g: Group, target: string, nodeId: Id, final: bool) returns (out: Row)
    ensures out.ip == row.ip
    ensures out.pending == (row.pending || (Waiting(g, target, nodeId) && !final))
    ensures out.status == (row.status || (ResultOf(g, target, nodeId).Some? && ResultOf(g, target, nodeId).value.success))
    ensures out.resolvedIp == match ResultOf(g, target, nodeId)
              case Some(result) => if result.resolved.Some? then result.resolved.value else row.resolvedIp
              case None => row.resolvedIp
    ensures var shown := Shown(g, target, nodeId, final);
            out.fields == if shown.Some? then row.fields[g.spec := shown.value] else row.fields
    ensures forall s :: s != g.spec ==> (s in out.fields <==> s in row.fields) && (s in row.fields ==> out.fields[s] == row.fields[s])
    ensures g.spec.Port? ==>
              && g.spec in out.fields
              && var result, shown := ResultOf(g, target, nodeId), out.fields[g.spec];
                 && (shown == PortOpen <==> result.Some? && result.value.success)
                 && (shown == PortClosed <==> result.Some? && !result.value.success)
  {
    out := row;
    var check := FindCheck(g.checks, target);
    var run := if check.Some? then FindRun(check.value.runs, nodeId) else None;
    var result := if run.Some? then run.value.result else None;
    var stillWaiting := result.None? && check.Some? && StillPending(check.value);
    var givingUpNow := stillWaiting && final;
    if stillWaiting && !givingUpNow {
      out := out.(pending := true);
    }
    if g.spec.Icmp? {
      if result.Some? {
        out := out.(fields := out.fields[g.spec := Replied(result.value.success)]);
        if result.value.success { out := out.(status := true); }
      } else if givingUpNow {
        out := out.(fields := out.fields[g.spec := NeverReplied]);
      } else if stillWaiting {
        out := out.(fields := out.fields[g.spec := StillRunning]);
      }
    } else if result.Some? {
      out := out.(fields := out.fields[g.spec := if result.value.success then PortOpen else PortClosed]);
      if result.value.success { out := out.(status := true); }
    } else {
      out := out.(fields := out.fields[g.spec := if givingUpNow then PortTimeout else if stillWaiting then PortAwaited else PortUnknown]);
    }
    if result.Some? && result.value.resolved.Some? {
      out := out.(resolvedIp := result.value.resolved.value);
    }
  }

  method MergeOne(target: string, nodeId: Id, groups: seq<Group>, final: bool) returns (row: Row)
    ensures RowFor(row, target, nodeId, groups, final)
  {
    row := Row(target, target, false, false, map[]);
    for k := 0 to |groups|
      invariant RowFor(row, target, nodeId, groups[..k], final)
    {
      assert groups[..k + 1] == groups[..k] + [groups[k]];
      AnyMore(groups[..k], groups[k], target, nodeId);
      FieldsMore(row.fields, groups[..k], groups[k], target, nodeId, final);
      row := MergeGroup(row, groups[k], target, nodeId, final);
    }
    assert groups[..|groups|] == groups;
  }

  /** One row per target, in target order. */
  method MergeNodeResults(targets: seq<string>, nodeId: Id, groups: seq<Group>, final: bool) returns (rows: seq<Row>)
    ensures |rows| == |targets|
    ensures forall i :: 0 <= i < |targets| ==> RowFor(rows[i], targets[i], nodeId, groups, final)
    ensures DistinctSpecs(groups) ==> forall i :: 0 <= i < |rows| ==>
              (rows[i].status <==> exists s :: s in rows[i].fields && (rows[i].fields[s] == PortOpen || rows[i].fields[s] == Replied(true)))
  {
    rows := [];
    for i := 0 to |targets|
      invariant |rows| == i && forall k :: 0 <= k < i ==> RowFor(rows[k], targets[k], nodeId, groups, final)
    {
      var row := MergeOne(targets[i], nodeId, groups, final);
      rows := rows + [row];
    }
    if DistinctSpecs(groups) {
      forall i | 0 <= i < |rows|
        ensures rows[i].status <==> exists s :: s in rows[i].fields && (rows[i].fields[s] == PortOpen || rows[i].fields[s] == Replied(true))
      {
        RowSummarizes(rows[i], targets[i], nodeId, groups, final);
      }
    }
  }
}
