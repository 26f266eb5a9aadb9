/** Provisioning of the singleton virtual node by any number of backends booting at once. */
module Boot {
  import opened Records

  /** Where one call of Ensure is; `Failed` is the not-found error out of the second read. */
  datatype Call = Reading | Inserting | Rereading | Returned(node: Id) | Failed

  /** Rows of nodes with is_virtual set, and the calls in progress. */
  datatype Sys = Sys(rows: seq<Id>, calls: map<Id, Call>)

  datatype Action = Start(k: Id) | Read(k: Id) | Insert(k: Id, id: Id) | Reread(k: Id) | Crash(k: Id)

  predicate Enabled(s: Sys, a: Action) {
    match a
    case Start(k) => k !in s.calls
    case Read(k) => k in s.calls && s.calls[k].Reading?
    case Insert(k, id) => k in s.calls && s.calls[k].Inserting? && id !in s.rows
    case Reread(k) => k in s.calls && s.calls[k].Rereading?
    case Crash(k) => k in s.calls
  }

  function Found(rows: seq<Id>, none: Call): Call {
    if rows == [] then none else Returned(rows[0])
  }

  function Do(s: Sys, a: Action): Sys
    requires Enabled(s, a)
  {
    match a
    case Start(k) => s.(calls := s.calls[k := Reading])
    case Read(k) => s.(calls := s.calls[k := Found(s.rows, Inserting)])
    case Insert(k, id) =>
      // the unique index refuses a second virtual row
      if s.rows == [] then Sys([id], s.calls[k := Returned(id)]) else s.(calls := s.calls[k := Rereading])
    case Reread(k) => s.(calls := s.calls[k := Found(s.rows, Call.Failed)])
    case Crash(k) => s.(calls := s.calls - {k})
  }

  ghost predicate Execution(states: seq<Sys>, acts: seq<Action>) {
    && |states| == |acts| + 1
    && states[0] == Sys([], map[])
    && forall i {:trigger acts[i]} :: 0 <= i < |acts| ==> Enabled(states[i], acts[i]) && states[i + 1] == Do(states[i], acts[i])
  }

  /** Whatever the interleaving: at most one virtual node ever exists, no call fails, and every
      call that returned has returned that node, in this state and in every later one. */
  lemma {:induction false} OneVirtualNode(states: seq<Sys>, acts: seq<Action>, i: nat)
    requires Execution(states, acts) && i < |states|
    ensures |states[i].rows| <= 1
    ensures forall k :: k in states[i].calls ==>
              && !states[i].calls[k].Failed?
              && (states[i].calls[k].Rereading? ==> |states[i].rows| == 1)
              && (states[i].calls[k].Returned? ==> states[i].rows == [states[i].calls[k].node])
    ensures i > 0 && states[i - 1].rows != [] ==> states[i].rows == states[i - 1].rows
  {
    if i > 0 {
      OneVirtualNode(states, acts, i - 1);
      var a := acts[i - 1];
    }
  }

  /** A call that no one crashes can always go on until it has returned. */
  lemma CallsFinish(states: seq<Sys>, acts: seq<Action>, i: nat, k: Id) returns (a: Action)
    requires Execution(states, acts) && i < |states| && k in states[i].calls && !states[i].calls[k].Returned?
    ensures Enabled(states[i], a) && !a.Crash? && !a.Start? && a.k == k
  {
    OneVirtualNode(states, acts, i);
    var rows := states[i].rows;
    match states[i].calls[k] {
      case Reading => a := Read(k);
      case Inserting => a := Insert(k, if rows == [] then 0 else rows[0] + 1);
      case Rereading => a := Reread(k);
    }
  }
}
