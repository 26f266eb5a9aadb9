/** The bot's periodic report scheduler: a map from users to their next run, visited by a timer,
    with reports running in the background between ticks. */
module Scheduler {
  import opened Records

  /** A user's stored settings as a tick reads them; an interval that is not a number reads 0. */
  datatype Config = Config(user: Id, active: bool, intervalSec: int, hasChat: bool)

  datatype Slot = Slot(nextRunAt: int, intervalSec: int, running: bool)

  datatype Launch = Launch(user: Id, at: int, intervalSec: int)

  /** `clock`, `launches` and `inFlight` are history: the last tick's time, every report started,
      and how many reports of a user are still running. */
  datatype State = State(slots: map<Id, Slot>, clock: int, launches: seq<Launch>, inFlight: map<Id, nat>)

  const EMPTY_STATE := State(map[], 0, [], map[])

  const MIN_INTERVAL_SEC := 10

  function Flying(s: State, u: Id): nat {
    if u in s.inFlight then s.inFlight[u] else 0
  }

  // ---- one tick ----

  function Due(now: int, intervalSec: int): int {
    now + intervalSec * 1000
  }

  /** The loop body for one user's settings. */
  function Visit(s: State, c: Config, now: int): State {
    if !c.active || c.intervalSec < MIN_INTERVAL_SEC || !c.hasChat then s
    else if c.user !in s.slots then
      s.(slots := s.slots[c.user := Slot(Due(now, c.intervalSec), c.intervalSec, false)])
    else
      var prev := s.slots[c.user];
      var kept := if prev.intervalSec == c.intervalSec then prev else prev.(intervalSec := c.intervalSec, nextRunAt := Due(now, c.intervalSec));
      if kept.running || now < kept.nextRunAt then s.(slots := s.slots[c.user := kept])
      else
        s.(slots := s.slots[c.user := kept.(running := true, nextRunAt := Due(now, c.intervalSec))],
           launches := s.launches + [Launch(c.user, now, c.intervalSec)],
           inFlight := s.inFlight[c.user := Flying(s, c.user) + 1])
  }

  function VisitAll(s: State, configs: seq<Config>, now: int): State {
    if configs == [] then s else Visit(VisitAll(s, configs[..|configs| - 1], now), configs[|configs| - 1], now)
  }

  function ActiveIds(configs: seq<Config>): set<Id> {
    set c | c in configs && c.active :: c.user
  }

  function DropInactive(s: State, active: set<Id>): State {
    s.(slots := map u | u in s.slots && u in active :: s.slots[u])
  }

  function Tick(s: State, configs: seq<Config>, now: int): State {
    DropInactive(VisitAll(s.(clock := now), configs, now), ActiveIds(configs))
  }

  /** A report of `u` ends: whatever slot the user has by then is no longer running. */
  function Finish(s: State, u: Id): State
    requires Flying(s, u) > 0
  {
    s.(slots := if u in s.slots then s.slots[u := s.slots[u].(running := false)] else s.slots,
       inFlight := s.inFlight[u := Flying(s, u) - 1])
  }

  // ---- runs ----

  datatype Event = Ticked(configs: seq<Config>, now: int) | Finished(user: Id)

  predicate Possible(s: State, e: Event) {
    match e
    case Ticked(_, now) => s.clock <= now
    case Finished(u) => Flying(s, u) > 0
  }

  function Next(s: State, e: Event): State
    requires Possible(s, e)
  {
    match e
    case Ticked(configs, now) => Tick(s, configs, now)
    case Finished(u) => Finish(s, u)
  }

  ghost predicate Run(states: seq<State>, events: seq<Event>) {
    && |states| == |events| + 1
    && states[0] == EMPTY_STATE
    && forall i {:trigger events[i]} :: 0 <= i < |events| ==> Possible(states[i], events[i]) && states[i + 1] == Next(states[i], events[i])
  }

  // ---- spacing ----

  /** A user's slot is not due before every earlier report of the user is an interval old. */
  ghost predicate Spaced(s: State) {
    && (forall i :: 0 <= i < |s.launches| ==> s.launches[i].at <= s.clock)
    && (forall u :: u in s.slots ==> s.slots[u].intervalSec >= MIN_INTERVAL_SEC)
    && (forall i :: 0 <= i < |s.launches| && s.launches[i].user in s.slots ==>
          var slot := s.slots[s.launches[i].user]; slot.nextRunAt >= s.launches[i].at + 1000 * slot.intervalSec)
    && (forall i, j :: 0 <= i < j < |s.launches| && s.launches[i].user == s.launches[j].user ==>
          s.launches[j].at >= s.launches[i].at + 1000 * s.launches[j].intervalSec)
  }

  lemma VisitKeepsSpaced(s: State, c: Config, now: int)
    requires Spaced(s) && s.clock == now
    ensures Spaced(Visit(s, c, now)) && Visit(s, c, now).clock == now
  {
  }

  lemma {:induction false} VisitAllKeepsSpaced(s: State, configs: seq<Config>, now: int)
    requires Spaced(s) && s.clock == now
    ensures Spaced(VisitAll(s, configs, now)) && VisitAll(s, configs, now).clock == now
  {
    if configs != [] {
      VisitAllKeepsSpaced(s, configs[..|configs| - 1], now);
      VisitKeepsSpaced(VisitAll(s, configs[..|configs| - 1], now), configs[|configs| - 1], now);
    }
  }

  lemma {:induction false} AlwaysSpaced(states: seq<State>, events: seq<Event>, k: nat)
    requires Run(states, events) && k < |states|
    ensures Spaced(states[k])
  {
    if k > 0 {
      AlwaysSpaced(states, events, k - 1);
      match events[k - 1] {
        case Ticked(configs, now) => VisitAllKeepsSpaced(states[k - 1].(clock := now), configs, now);
        case Finished(u) =>
      }
    }
  }

  /** With tick times in milliseconds that do not decrease, two reports of a user start at least
      the interval in force at the later one apart, across interval changes and deactivations. */
  lemma ReportsAreSpaced(states: seq<State>, events: seq<Event>, k: nat)
    requires Run(states, events) && k < |states|
    ensures forall i, j :: 0 <= i < j < |states[k].launches| && states[k].launches[i].user == states[k].launches[j].user ==>
              states[k].launches[j].at - states[k].launches[i].at >= 1000 * states[k].launches[j].intervalSec
  {
    AlwaysSpaced(states, events, k);
  }

  /** Whatever `u` is launched from here on is launched an interval after `since`. */
  ghost predicate Waits(s: State, u: Id, since: int, base: nat) {
    && s.clock >= since && |s.launches| >= base
    && (u in s.slots ==> s.slots[u].nextRunAt >= since + 1000 * s.slots[u].intervalSec)
    && (forall i :: base <= i < |s.launches| && s.launches[i].user == u ==> s.launches[i].at >= since + 1000 * s.launches[i].intervalSec)
  }

  lemma VisitKeepsWaiting(s: State, c: Config, now: int, u: Id, since: int, base: nat)
    requires Waits(s, u, since, base) && s.clock == now
    ensures Waits(Visit(s, c, now), u, since, base) && Visit(s, c, now).clock == now
  {
  }

  lemma {:induction false} VisitAllKeepsWaiting(s: State, configs: seq<Config>, now: int, u: Id, since: int, base: nat)
    requires Waits(s, u, since, base) && s.clock == now
    ensures Waits(VisitAll(s, configs, now), u, since, base) && VisitAll(s, configs, now).clock == now
  {
    if configs != [] {
      VisitAllKeepsWaiting(s, configs[..|configs| - 1], now, u, since, base);
      VisitKeepsWaiting(VisitAll(s, configs[..|configs| - 1], now), configs[|configs| - 1], now, u, since, base);
    }
  }

  lemma {:induction false} KeepsWaiting(states: seq<State>, events: seq<Event>, u: Id, since: int, base: nat, i: nat, k: nat)
    requires Run(states, events) && i <= k < |states| && Waits(states[i], u, since, base)
    ensures Waits(states[k], u, since, base)
  {
    if i < k {
      KeepsWaiting(states, events, u, since, base, i, k - 1);
      match events[k - 1] {
        case Ticked(configs, now) => VisitAllKeepsWaiting(states[k - 1].(clock := now), configs, now, u, since, base);
        case Finished(v) =>
      }
    }
  }

  /** A user without a slot is not served before an interval has passed: no report starts less than
      that after the tick that makes the slot. */
  lemma FirstReportWaits(states: seq<State>, events: seq<Event>, u: Id, i: nat, k: nat)
    requires Run(states, events) && i < k < |states| && events[i].Ticked? && u !in states[i].slots
    ensures |states[i].launches| <= |states[k].launches|
    ensures forall j :: |states[i].launches| <= j < |states[k].launches| && states[k].launches[j].user == u ==>
              states[k].launches[j].at - events[i].now >= 1000 * states[k].launches[j].intervalSec
  {
    var configs, now, base := events[i].configs, events[i].now, |states[i].launches|;
    VisitAllKeepsWaiting(states[i].(clock := now), configs, now, u, now, base);
    KeepsWaiting(states, events, u, now, base, i + 1, k);
  }

  // ---- one tick, user by user ----

  /** When a visit starts a report, and what it leaves behind, in milliseconds. */
  lemma VisitByUser(s: State, c: Config, now: int)
    ensures var after := Visit(s, c, now);
            var served := c.active && c.intervalSec >= 10 && c.hasChat;
            var due := served && c.user in s.slots && s.slots[c.user].intervalSec == c.intervalSec
                       && !s.slots[c.user].running && s.slots[c.user].nextRunAt <= now;
            && after.clock == s.clock
            && after.launches == (if due then s.launches + [Launch(c.user, now, c.intervalSec)] else s.launches)
            && (forall u :: u != c.user ==> (u in after.slots <==> u in s.slots) && (u in s.slots ==> after.slots[u] == s.slots[u]) && Flying(after, u) == Flying(s, u))
            && Flying(after, c.user) == Flying(s, c.user) + (if due then 1 else 0)
            && (c.user in after.slots <==> served || c.user in s.slots)
            && (!served && c.user in s.slots ==> after.slots[c.user] == s.slots[c.user])
            && (served && c.user !in s.slots ==> after.slots[c.user] == Slot(now + 1000 * c.intervalSec, c.intervalSec, false))
            && (served && c.user in s.slots && s.slots[c.user].intervalSec != c.intervalSec ==>
                  after.slots[c.user] == Slot(now + 1000 * c.intervalSec, c.intervalSec, s.slots[c.user].running))
            && (due ==> after.slots[c.user] == Slot(now + 1000 * c.intervalSec, c.intervalSec, true))
            && (served && !due && c.user in s.slots && s.slots[c.user].intervalSec == c.intervalSec ==> after.slots[c.user] == s.slots[c.user])
  {
  }

  /** The reports of `u`, in the order they were started. */
  function LaunchesOf(launches: seq<Launch>, u: Id): seq<Launch> {
    if launches == [] then []
    else
      var n := |launches| - 1;
      LaunchesOf(launches[..n], u) + if launches[n].user == u then [launches[n]] else []
  }

  lemma LaunchesOfMore(launches: seq<Launch>, l: Launch, u: Id)
    ensures LaunchesOf(launches + [l], u) == LaunchesOf(launches, u) + if l.user == u then [l] else []
  {
    assert (launches + [l])[..|launches|] == launches;
  }

  lemma VisitOther(s: State, c: Config, now: int, u: Id)
    requires c.user != u
    ensures var after := Visit(s, c, now);
            && (u in after.slots <==> u in s.slots) && (u in s.slots ==> after.slots[u] == s.slots[u])
            && LaunchesOf(after.launches, u) == LaunchesOf(s.launches, u)
  {
    LaunchesOfMore(s.launches, Launch(c.user, now, c.intervalSec), u);
  }

  lemma {:induction false} VisitAllOthers(s: State, configs: seq<Config>, now: int, u: Id)
    requires forall i :: 0 <= i < |configs| ==> configs[i].user != u
    ensures var after := VisitAll(s, configs, now);
            && (u in after.slots <==> u in s.slots) && (u in s.slots ==> after.slots[u] == s.slots[u])
            && LaunchesOf(after.launches, u) == LaunchesOf(s.launches, u)
  {
    if configs != [] {
      var n := |configs| - 1;
      VisitAllOthers(s, configs[..n], now, u);
      VisitOther(VisitAll(s, configs[..n], now), configs[n], now, u);
    }
  }

  lemma {:induction false} VisitAllSplits(s: State, configs: seq<Config>, now: int, k: nat)
    requires k <= |configs|
    ensures VisitAll(s, configs, now) == VisitAll(VisitAll(s, configs[..k], now), configs[k..], now)
    decreases |configs| - k
  {
    var n := |configs| - 1;
    if k == |configs| {
      assert configs[..k] == configs;
    } else {
      VisitAllSplits(s, configs[..n], now, k);
      assert configs[..n][..k] == configs[..k] && configs[..n][k..] == configs[k..][..n - k];
    }
  }

  /** A tick that reads one setting of a user: an inactive user loses the slot, an unusable setting
      leaves it alone, a new or changed interval starts counting now, and a report starts exactly
      when the unchanged interval has passed and none is running. */
  lemma TickByUser(s: State, configs: seq<Config>, now: int, k: nat)
    requires k < |configs| && forall i :: 0 <= i < |configs| && i != k ==> configs[i].user != configs[k].user
    ensures var c, after := configs[k], Tick(s, configs, now);
            var served := c.active && c.intervalSec >= 10 && c.hasChat;
            var due := served && c.user in s.slots && s.slots[c.user].intervalSec == c.intervalSec
                       && !s.slots[c.user].running && s.slots[c.user].nextRunAt <= now;
            && LaunchesOf(after.launches, c.user) == LaunchesOf(s.launches, c.user) + (if due then [Launch(c.user, now, c.intervalSec)] else [])
            && (c.user in after.slots <==> c.active && (served || c.user in s.slots))
            && (c.user in after.slots ==>
                  after.slots[c.user] == if due then Slot(now + 1000 * c.intervalSec, c.intervalSec, true)
                                         else if served && c.user !in s.slots then Slot(now + 1000 * c.intervalSec, c.intervalSec, false)
                                         else if served && s.slots[c.user].intervalSec != c.intervalSec then Slot(now + 1000 * c.intervalSec, c.intervalSec, s.slots[c.user].running)
                                         else s.slots[c.user])
  {
    var s0 := s.(clock := now);
    var c := configs[k];
    var s1 := VisitAll(s0, configs[..k], now);
    var s2 := Visit(s1, c, now);
    var s3 := VisitAll(s2, configs[k + 1..], now);
    VisitAllOthers(s0, configs[..k], now, c.user);
    VisitByUser(s1, c, now);
    VisitAllOthers(s2, configs[k + 1..], now, c.user);
    assert VisitAll(s0, configs, now) == s3 by {
      VisitAllSplits(s0, configs, now, k + 1);
      assert configs[..k + 1][..k] == configs[..k];
    }
    LaunchesOfMore(s1.launches, Launch(c.user, now, c.intervalSec), c.user);
    assert c.user in ActiveIds(configs) <==> c.active by {
      assert c in configs;
    }
  }

  // ---- single flight ----

  /** The event does not drop user `u` while one of the user's reports is still running. */
  predicate Keeps(s: State, e: Event, u: Id) {
    e.Ticked? && Flying(s, u) > 0 ==> u in ActiveIds(e.configs)
  }

  /** At most one report of `u` is in flight, and exactly when the slot says so. */
  predicate Single(s: State, u: Id) {
    Flying(s, u) == if u in s.slots && s.slots[u].running then 1 else 0
  }

  lemma VisitKeepsSingle(s: State, c: Config, now: int, u: Id)
    requires Single(s, u)
    ensures Single(Visit(s, c, now), u)
    ensures Flying(Visit(s, c, now), u) > Flying(s, u) ==> c.user == u && c.active
  {
  }

  /** Visiting settings keeps it; a report of `u` can only start if `u` is among the active. */
  lemma {:induction false} VisitAllKeepsSingle(s: State, configs: seq<Config>, now: int, u: Id)
    requires Single(s, u)
    ensures Single(VisitAll(s, configs, now), u)
    ensures Flying(VisitAll(s, configs, now), u) > Flying(s, u) ==> u in ActiveIds(configs)
  {
    if configs != [] {
      var n := |configs| - 1;
      VisitAllKeepsSingle(s, configs[..n], now, u);
      VisitKeepsSingle(VisitAll(s, configs[..n], now), configs[n], now, u);
      assert ActiveIds(configs[..n]) <= ActiveIds(configs) && configs[n] in configs;
    }
  }

  lemma {:induction false} VisitAllOnlyAdds(s: State, configs: seq<Config>, now: int, u: Id)
    ensures Flying(VisitAll(s, configs, now), u) >= Flying(s, u)
  {
    if configs != [] { VisitAllOnlyAdds(s, configs[..|configs| - 1], now, u); }
  }

  /** Dropping the user mid-report is the only way a tick breaks it: the report stays in flight
      with no slot to say so. Other users do not matter. */
  lemma TickKeepsSingleIff(s: State, configs: seq<Config>, now: int, u: Id)
    requires Single(s, u)
    ensures Single(Tick(s, configs, now), u) <==> Keeps(s, Ticked(configs, now), u)
  {
    VisitAllKeepsSingle(s.(clock := now), configs, now, u);
    VisitAllOnlyAdds(s.(clock := now), configs, now, u);
  }

  /** A run from any state. */
  ghost predicate Continues(states: seq<State>, events: seq<Event>) {
    && |states| == |events| + 1
    && forall i {:trigger events[i]} :: 0 <= i < |events| ==> Possible(states[i], events[i]) && states[i + 1] == Next(states[i], events[i])
  }

  lemma {:induction false} SingleFlightFrom(states: seq<State>, events: seq<Event>, u: Id, k: nat)
    requires Continues(states, events) && k < |states| && Single(states[0], u)
    requires forall i {:trigger events[i]} :: 0 <= i < k ==> Keeps(states[i], events[i], u)
    ensures Single(states[k], u)
  {
    if k > 0 {
      SingleFlightFrom(states, events, u, k - 1);
      match events[k - 1] {
        case Ticked(configs, now) => TickKeepsSingleIff(states[k - 1], configs, now, u);
        case Finished(v) => assert Single(states[k], u);
      }
    }
  }

  /** While a user is not dropped mid-report, at most one report of that user is in flight, whoever
      else comes and goes. */
  lemma SingleFlight(states: seq<State>, events: seq<Event>, u: Id, k: nat)
    requires Run(states, events) && k < |states|
    requires forall i {:trigger events[i]} :: 0 <= i < k ==> Keeps(states[i], events[i], u)
    ensures Single(states[k], u) && Flying(states[k], u) <= 1
  {
    SingleFlightFrom(states, events, u, k);
  }

  /** In particular while the user is active at every tick. */
  lemma ActiveUserSingleFlight(states: seq<State>, events: seq<Event>, u: Id, k: nat)
    requires Run(states, events) && k < |states|
    requires forall i {:trigger events[i]} :: 0 <= i < k && events[i].Ticked? ==> u in ActiveIds(events[i].configs)
    ensures Flying(states[k], u) <= 1
  {
    forall i | 0 <= i < k ensures Keeps(states[i], events[i], u) {
      var e := events[i];
    }
    SingleFlight(states, events, u, k);
  }

  /** If nobody is ever dropped mid-report, no user has two. */
  lemma EverybodySingleFlight(states: seq<State>, events: seq<Event>, k: nat)
    requires Run(states, events) && k < |states|
    requires forall i, u {:trigger Keeps(states[i], events[i], u)} :: 0 <= i < k ==> Keeps(states[i], events[i], u)
    ensures forall u :: Flying(states[k], u) <= 1
  {
    forall u ensures Flying(states[k], u) <= 1 {
      forall i | 0 <= i < k ensures Keeps(states[i], events[i], u) {
        var e := events[i];
      }
      SingleFlight(states, events, u, k);
    }
  }

  // ---- what dropping a user mid-report leads to ----

  /** A tick that sees only `u`, active. */
  function OnlyTick(u: Id, intervalSec: int, now: int): Event {
    Ticked([Config(u, true, intervalSec, true)], now)
  }

  lemma OnlyTickIsVisit(s: State, u: Id, intervalSec: int, now: int)
    ensures var c := Config(u, true, intervalSec, true);
            Tick(s, [c], now) == DropInactive(Visit(s.(clock := now), c, now), {u})
  {
    var c := Config(u, true, intervalSec, true);
    assert [c][..0] == [];
    assert VisitAll(s.(clock := now), [c], now) == Visit(s.(clock := now), c, now);
    assert ActiveIds([c]) == {u} by {
      assert c in [c];
    }
  }

  /** Once a user has no slot, two ticks at which the user is active start a report, beside any
      that is still running. */
  lemma OrphanAllowsSecondFlight(s: State, u: Id, intervalSec: int) returns (first: Event, second: Event)
    requires u !in s.slots && intervalSec >= MIN_INTERVAL_SEC
    ensures first == OnlyTick(u, intervalSec, s.clock) && second == OnlyTick(u, intervalSec, Due(s.clock, intervalSec))
    ensures Possible(s, first) && Possible(Next(s, first), second)
    ensures Flying(Next(Next(s, first), second), u) == Flying(s, u) + 1
    ensures var end := Next(Next(s, first), second);
            end.clock == Due(s.clock, intervalSec) && u in end.slots && end.slots[u].running
  {
    first, second := OnlyTick(u, intervalSec, s.clock), OnlyTick(u, intervalSec, Due(s.clock, intervalSec));
    OnlyTickIsVisit(s, u, intervalSec, s.clock);
    OnlyTickIsVisit(Next(s, first), u, intervalSec, Due(s.clock, intervalSec));
  }

  /** From `s`, with `u` active at every tick, two reports of `u` can come to be in flight. */
  ghost predicate CanDouble(s: State, u: Id) {
    exists states, events :: Doubling(s, u, states, events)
  }

  ghost predicate Doubling(s: State, u: Id, states: seq<State>, events: seq<Event>) {
    && Continues(states, events) && states[0] == s && Flying(states[|events|], u) >= 2
    && forall i {:trigger events[i]} :: 0 <= i < |events| && events[i].Ticked? ==> u in ActiveIds(events[i].configs)
  }

  /** Whether a user active from now on can get two reports at once is decided by whether the
      tick dropped the user mid-report. */
  lemma DroppingDecides(s: State, configs: seq<Config>, now: int, u: Id)
    requires Single(s, u) && s.clock <= now
    ensures CanDouble(Tick(s, configs, now), u) <==> !Keeps(s, Ticked(configs, now), u)
  {
    var after := Tick(s, configs, now);
    TickKeepsSingleIff(s, configs, now, u);
    if Keeps(s, Ticked(configs, now), u) {
      forall states, events | Doubling(after, u, states, events) ensures false {
        forall i | 0 <= i < |events| ensures Keeps(states[i], events[i], u) {
          var e := events[i];
        }
        SingleFlightFrom(states, events, u, |events|);
      }
    } else {
      VisitAllOnlyAdds(s.(clock := now), configs, now, u);
      var first, second := OrphanAllowsSecondFlight(after, u, MIN_INTERVAL_SEC);
      assert Doubling(after, u, [after, Next(after, first), Next(Next(after, first), second)], [first, second]) by {
        OnlyActive(u, MIN_INTERVAL_SEC, first.now);
        OnlyActive(u, MIN_INTERVAL_SEC, second.now);
      }
    }
  }

  lemma OnlyActive(u: Id, intervalSec: int, now: int)
    ensures u in ActiveIds(OnlyTick(u, intervalSec, now).configs)
  {
    var c := Config(u, true, intervalSec, true);
    assert c in [c];
  }

  /** A run from the start: report, deactivation while it runs, reactivation, second report. */
  lemma TwoInFlight(u: Id, intervalSec: int) returns (states: seq<State>, events: seq<Event>)
    requires intervalSec >= MIN_INTERVAL_SEC
    ensures Run(states, events) && Flying(states[|events|], u) == 2
  {
    var a, b := OrphanAllowsSecondFlight(EMPTY_STATE, u, intervalSec);
    var s1 := Next(EMPTY_STATE, a);
    var s2 := Next(s1, b);
    var off := Ticked([], s2.clock);
    var s3 := Next(s2, off);
    var c, d := OrphanAllowsSecondFlight(s3, u, intervalSec);
    states := [EMPTY_STATE, s1, s2, s3, Next(s3, c), Next(Next(s3, c), d)];
    events := [a, b, off, c, d];
  }

  // ---- the object ----

  lemma ActiveMore(configs: seq<Config>, i: nat)
    requires i < |configs|
    ensures ActiveIds(configs[..i + 1]) == ActiveIds(configs[..i]) + if configs[i].active then {configs[i].user} else {}
  {
    assert configs[..i + 1] == configs[..i] + [configs[i]];
  }

  class HealthScheduler {
    var slots: map<Id, Slot>
    ghost var clock: int
    ghost var launches: seq<Launch>
    ghost var inFlight: map<Id, nat>

    ghost function View(): State
      reads this
    {
      State(slots, clock, launches, inFlight)
    }

    constructor ()
      ensures View() == EMPTY_STATE
    {
      slots, clock, launches, inFlight := map[], 0, [], map[];
    }

    /** The loop body for one user's settings. */
    method VisitUser(c: Config, now: int) returns (started: bool)
      modifies this
      ensures View() == Visit(old(View()), c, now)
      ensures launches == old(launches) + if started then [Launch(c.user, now, c.intervalSec)] else []
      ensures started <==> c.active && c.intervalSec >= 10 && c.hasChat && c.user in old(slots) && old(slots)[c.user].intervalSec == c.intervalSec
                           && !old(slots)[c.user].running && old(slots)[c.user].nextRunAt <= now
      ensures started ==> slots == old(slots)[c.user := Slot(now + 1000 * c.intervalSec, c.intervalSec, true)]
    {
      if !c.active || c.intervalSec < MIN_INTERVAL_SEC || !c.hasChat { return false; }
      if c.user !in slots {
        slots := slots[c.user := Slot(now + c.intervalSec * 1000, c.intervalSec, false)];
        return false;
      }
      if slots[c.user].intervalSec != c.intervalSec {
        slots := slots[c.user := slots[c.user].(intervalSec := c.intervalSec, nextRunAt := now + c.intervalSec * 1000)];
      }
      if slots[c.user].running || now < slots[c.user].nextRunAt { return false; }
      slots := slots[c.user := slots[c.user].(running := true, nextRunAt := now + c.intervalSec * 1000)];
      launches := launches + [Launch(c.user, now, c.intervalSec)];
      inFlight := inFlight[c.user := (if c.user in inFlight then inFlight[c.user] else 0) + 1];
      return true;
    }

    /** Returns the users whose report is started. A user with one setting is among the active or
        loses the slot; the report starts when the stored interval is unchanged, has passed and no
        report is marked running, and the next one is due an interval of milliseconds later. */
    method OnTick(configs: seq<Config>, now: int) returns (started: seq<Id>)
      modifies this
      ensures View() == Tick(old(View()), configs, now)
      ensures forall u :: u in slots ==> exists k :: 0 <= k < |configs| && configs[k].user == u && configs[k].active
      ensures forall k :: 0 <= k < |configs| && (forall i :: 0 <= i < |configs| && i != k ==> configs[i].user != configs[k].user) ==>
                var c := configs[k];
                var due := c.active && c.intervalSec >= 10 && c.hasChat && c.user in old(slots) && old(slots)[c.user].intervalSec == c.intervalSec
                           && !old(slots)[c.user].running && old(slots)[c.user].nextRunAt <= now;
                && LaunchesOf(launches, c.user) == LaunchesOf(old(launches), c.user) + (if due then [Launch(c.user, now, c.intervalSec)] else [])
                && (due ==> c.user in slots && slots[c.user] == Slot(now + 1000 * c.intervalSec, c.intervalSec, true))
                && (c.active && c.intervalSec >= 10 && c.hasChat && c.user !in old(slots) ==>
                      c.user in slots && slots[c.user] == Slot(now + 1000 * c.intervalSec, c.intervalSec, false))
      ensures |launches| == |old(launches)| + |started|
      ensures forall i :: 0 <= i < |started| ==> launches[|old(launches)| + i].user == started[i]
    {
      started := [];
      clock := now;
      var activeIds := {};
      for i := 0 to |configs|
        invariant activeIds == ActiveIds(configs[..i])
        invariant View() == VisitAll(old(View()).(clock := now), configs[..i], now)
        invariant |launches| == |old(launches)| + |started|
        invariant forall k :: 0 <= k < |started| ==> launches[|old(launches)| + k].user == started[k]
      {
        ActiveMore(configs, i);
        assert configs[..i + 1][..i] == configs[..i];
        if configs[i].active { activeIds := activeIds + {configs[i].user}; }
        var launched := VisitUser(configs[i], now);
        if launched { started := started + [configs[i].user]; }
      }
      assert configs[..|configs|] == configs;
      slots := map u | u in slots && u in activeIds :: slots[u];
      forall k | 0 <= k < |configs| && (forall i :: 0 <= i < |configs| && i != k ==> configs[i].user != configs[k].user)
        ensures var c := configs[k];
                var due := c.active && c.intervalSec >= 10 && c.hasChat && c.user in old(slots) && old(slots)[c.user].intervalSec == c.intervalSec
                           && !old(slots)[c.user].running && old(slots)[c.user].nextRunAt <= now;
                && LaunchesOf(launches, c.user) == LaunchesOf(old(launches), c.user) + (if due then [Launch(c.user, now, c.intervalSec)] else [])
                && (due ==> c.user in slots && slots[c.user] == Slot(now + 1000 * c.intervalSec, c.intervalSec, true))
                && (c.active && c.intervalSec >= 10 && c.hasChat && c.user !in old(slots) ==>
                      c.user in slots && slots[c.user] == Slot(now + 1000 * c.intervalSec, c.intervalSec, false))
      {
        TickByUser(old(View()), configs, now, k);
      }
    }

    method OnFinish(u: Id)
      requires Flying(View(), u) > 0
      modifies this
      ensures View() == Finish(old(View()), u)
      ensures u in old(slots) ==> slots == old(slots)[u := old(slots)[u].(running := false)]
      ensures u !in old(slots) ==> slots == old(slots)
      ensures launches == old(launches) && u in inFlight && inFlight[u] == old(inFlight)[u] - 1
    {
      if u in slots {
        slots := slots[u := slots[u].(running := false)];
      }
      inFlight := inFlight[u := inFlight[u] - 1];
    }
  }
}
