/** The host agent's throttled health writer and the watchdog that reads what it writes. */
module HealthWriter {
  import opened Tables

  datatype Vm = Up | Down | Recovering | MigratingVm | StaleVm
  datatype App = AppUp | AppDown | AppUnknown

  /** The tenant row's health attributes. */
  datatype Row = Row(status: TenantStatus, vm: Vm, app: App, stamp: Option<int>)
  datatype Written = Written(vm: Vm, app: App, at: int)
  datatype Probe = Probe(id: TenantId, vm: Vm, app: App)

  /** What a tick meets for one tenant: a gateway token, an error in the promote write, the health
      write going through. */
  datatype Answer = Answer(token: bool, promoteError: bool, writeOk: bool)

  /** Everything kept about one tenant: two caches in the agent, and the row. */
  datatype Track = Track(promoted: bool, last: Option<Written>, row: Row)

  const STALE_SECONDS := 120

  predicate Due(last: Option<Written>, p: Probe, now: int, refresh: int) {
    last.None? || last.value.vm != p.vm || last.value.app != p.app || now - last.value.at >= refresh
  }

  /** One tenant's share of a `_write_ddb` call. */
  function TickOne(t: Track, p: Probe, now: int, refresh: int, a: Answer): Track {
    var written := Written(p.vm, p.app, now);
    var newly := p.vm == Up && !t.promoted;
    if newly && (!a.token || a.promoteError) then t
    else if newly && t.row.status == Creating then
      Track(true, Some(written), t.row.(status := Running, vm := p.vm, app := p.app, stamp := Some(now)))
    else
      var promoted := t.promoted || newly;
      if Due(t.last, p, now, refresh) && a.writeOk
      then Track(promoted, Some(written), t.row.(vm := p.vm, app := p.app, stamp := Some(now)))
      else t.(promoted := promoted)
  }

  const NO_ROW := Row(TenantStatus.Deleted, StaleVm, AppUnknown, None)

  class TenantsTable {
    var rows: map<TenantId, Row>

    constructor ()
      ensures rows == map[]
    {
      rows := map[];
    }
  }

  function Get(rows: map<TenantId, Row>, id: TenantId): Row {
    if id in rows then rows[id] else NO_ROW
  }

  function TrackOf(promoted: set<TenantId>, last: map<TenantId, Written>, rows: map<TenantId, Row>, id: TenantId): Track {
    Track(id in promoted, if id in last then Some(last[id]) else None, Get(rows, id))
  }

  class Agent {
    const table: TenantsTable
    const refresh: int
    var promoted: set<TenantId>
    var last: map<TenantId, Written>

    constructor (table: TenantsTable, refresh: int)
      ensures this.table == table && this.refresh == refresh && promoted == {} && last == map[]
    {
      this.table, this.refresh, promoted, last := table, refresh, {}, map[];
    }

    ghost function View(id: TenantId): Track
      reads this, table
    {
      TrackOf(promoted, last, table.rows, id)
    }

    /** `_write_ddb`: every probed tenant makes its own step, the caches forget everyone else. */
    method WriteDdb(results: seq<Probe>, now: int, answers: map<TenantId, Answer>)
      requires forall i, j | 0 <= i < j < |results| :: results[i].id != results[j].id
      requires forall p <- results :: p.id in answers
      modifies this, table
      ensures forall p <- results :: View(p.id) == TickOne(old(View(p.id)), p, now, refresh, answers[p.id])
      ensures forall id | (forall p <- results :: p.id != id) :: View(id) == Track(false, None, old(View(id)).row)
      ensures forall p <- results ::
                var a, was, became := answers[p.id], old(View(p.id)), View(p.id);
                (p.vm == Up && !was.promoted && was.row.status == Creating ==>
                   if a.token && !a.promoteError
                   then became == Track(true, Some(Written(p.vm, p.app, now)), Row(Running, p.vm, p.app, Some(now)))
                   else became == was) &&
                (p.vm == Up && !was.promoted && was.row.status != Creating ==>
                   if a.token && !a.promoteError then became.promoted else became == was) &&
                (became.row.status != was.row.status ==>
                   p.vm == Up && !was.promoted && was.row.status == Creating && became.row.status == Running)
    {
      for i := 0 to |results|
        invariant forall p <- results[..i] :: View(p.id) == TickOne(old(View(p.id)), p, now, refresh, answers[p.id])
        invariant forall id | (forall p <- results[..i] :: p.id != id) :: View(id) == old(View(id))
      {
        var p := results[i];
        assert p in results && results[..i + 1] == results[..i] + [p];
        assert forall q <- results[..i] :: q.id != p.id;
        WriteOne(p, now, answers[p.id]);
      }
      assert results[..|results|] == results;
      Forget(set p <- results :: p.id);
    }

    /** The caches keep only the tenants seen this tick. */
    method Forget(ids: set<TenantId>)
      modifies this`promoted, this`last
      ensures forall id :: View(id) == if id in ids then old(View(id)) else Track(false, None, old(View(id)).row)
    {
      promoted := promoted * ids;
      last := map id | id in last && id in ids :: last[id];
    }

    /** The body of the loop. */
    method WriteOne(p: Probe, now: int, a: Answer)
      modifies this, table
      ensures View(p.id) == TickOne(old(View(p.id)), p, now, refresh, a)
      ensures forall id | id != p.id :: View(id) == old(View(id))
    {
      var row := Get(table.rows, p.id);
      if p.vm == Up && p.id !in promoted {
        if !a.token || a.promoteError {
          return;
        }
        promoted := promoted + {p.id};
        if row.status == Creating {
          table.rows := table.rows[p.id := row.(status := Running, vm := p.vm, app := p.app, stamp := Some(now))];
          last := last[p.id := Written(p.vm, p.app, now)];
          return;
        }
      }
      var prev := if p.id in last then Some(last[p.id]) else None;
      if !(prev.None? || prev.value.vm != p.vm || prev.value.app != p.app || now - prev.value.at >= refresh) {
        return;
      }
      if a.writeOk {
        table.rows := table.rows[p.id := row.(vm := p.vm, app := p.app, stamp := Some(now))];
        last := last[p.id := Written(p.vm, p.app, now)];
      }
    }
  }

  /** The watchdog marks a running tenant exactly when its stamp is missing or 120 s old, and touches
      nothing but the two health attributes. */
  lemma WatchdogMarksExactly(row: Row, now: int)
    ensures var row' := WatchdogOne(row, now);
            row'.status == row.status && row'.stamp == row.stamp &&
            (if row.status == Running && (row.stamp == None || row.stamp.value <= now - 120)
             then row'.vm == StaleVm && row'.app == AppUnknown else row' == row)
  {
  }

  // ---- Promotion ----

  datatype Tick = Tick(p: Probe, now: int, a: Answer)

  /** One tenant over agent ticks, any answers. */
  ghost predicate AgentRun(tracks: seq<Track>, ticks: seq<Tick>, refresh: int) {
    |tracks| == |ticks| + 1 &&
    forall i | 0 <= i < |ticks| :: tracks[i + 1] == TickOne(tracks[i], ticks[i].p, ticks[i].now, refresh, ticks[i].a)
  }

  /** A tick in which the tenant, not known to be past `creating`, is found up with its token there and
      no error in between. */
  predicate Promising(t: Track, tick: Tick) {
    tick.p.vm == Up && !t.promoted && tick.a.token && !tick.a.promoteError
  }

  /** Over runs: a `creating` tenant the agent has not promoted becomes `running` at the first promising
      tick, with the health of that probe stamped then, and at no other; until then the agent keeps
      trying. */
  lemma {:induction false} PromotedAtFirstPromisingTick(tracks: seq<Track>, ticks: seq<Tick>, refresh: int, n: nat)
    requires AgentRun(tracks, ticks, refresh) && n < |tracks|
    requires tracks[0].row.status == Creating && !tracks[0].promoted
    requires forall i | 0 <= i < n - 1 :: !Promising(tracks[i], ticks[i])
    ensures if n > 0 && Promising(tracks[n - 1], ticks[n - 1])
            then tracks[n].promoted &&
                 tracks[n].row == Row(Running, Up, ticks[n - 1].p.app, Some(ticks[n - 1].now))
            else tracks[n].row.status == Creating && !tracks[n].promoted
  {
    if n > 0 {
      PromotedAtFirstPromisingTick(tracks, ticks, refresh, n - 1);
    }
  }

  /** And a promoted tenant's status is never written again. */
  lemma PromotedStatusIsLeftAlone(t: Track, p: Probe, now: int, refresh: int, a: Answer)
    requires t.promoted
    ensures var t' := TickOne(t, p, now, refresh, a); t'.promoted && t'.row.status == t.row.status
  {
  }

  /** The watchdog's share for one tenant: `lambda_handler`, first loop. */
  function WatchdogOne(row: Row, now: int): Row {
    if row.status == Running && (row.stamp.None? || now - row.stamp.value >= STALE_SECONDS)
    then row.(vm := StaleVm, app := AppUnknown) else row
  }

  // ---- One tenant over a run of agent ticks, watchdog sweeps and other writers of its status ----

  datatype Event =
    | AgentTick(now: int, p: Probe, a: Answer)
    | Watchdog(now: int)
    | Other(status: TenantStatus)

  /** `tick` is the time of the last agent tick. */
  datatype State = State(t: Track, tick: int)

  /** Ticks are at most `period` apart, so a sweep falls at most that long after a tick.  Writes
      succeed, and the tenant is one the agent writes for: not up, or promoted. */
  predicate Enabled(s: State, e: Event, period: int) {
    match e
    case AgentTick(now, p, a) =>
      s.tick <= now <= s.tick + period && a.writeOk && (p.vm == Up ==> s.t.promoted) && p.vm != StaleVm
    case Watchdog(now) => s.tick <= now <= s.tick + period
    case Other(_) => true
  }

  function Step(s: State, e: Event, refresh: int): State {
    match e
    case AgentTick(now, p, a) => State(TickOne(s.t, p, now, refresh, a), now)
    case Watchdog(now) => s.(t := s.t.(row := WatchdogOne(s.t.row, now)))
    case Other(status) => s.(t := s.t.(row := s.t.row.(status := status)))
  }

  /** The cache says what the row says, and the row's stamp was fresh at the last tick. */
  predicate Coherent(s: State, refresh: int) {
    s.t.last.Some? && s.t.row.vm == s.t.last.value.vm && s.t.row.app == s.t.last.value.app &&
    s.t.row.stamp == Some(s.t.last.value.at) && s.tick - s.t.last.value.at < refresh
  }

  ghost predicate Run(states: seq<State>, events: seq<Event>, refresh: int, period: int) {
    |states| == |events| + 1 && Coherent(states[0], refresh) && states[0].t.row.vm != StaleVm &&
    forall i | 0 <= i < |events| ::
      Enabled(states[i], events[i], period) && states[i + 1] == Step(states[i], events[i], refresh)
  }

  /** The throttled writer refines the one that writes at every tick: after the tick the row carries
      the health just probed, with a stamp younger than the refresh interval. */
  lemma TickRefinesNaive(t: Track, p: Probe, now: int, refresh: int, a: Answer)
    requires refresh > 0 && a.writeOk && (p.vm == Up ==> t.promoted)
    requires t.last.Some? ==> t.row.vm == t.last.value.vm && t.row.app == t.last.value.app &&
                              t.row.stamp == Some(t.last.value.at)
    ensures var t' := TickOne(t, p, now, refresh, a);
            Coherent(State(t', now), refresh) && t'.row.vm == p.vm && t'.row.app == p.app &&
            t'.row.status == t.row.status && t'.row.stamp.Some? && now - t'.row.stamp.value < refresh
  {
  }

  /** With refresh + period within the staleness bound the watchdog never marks the tenant, so its
      writes never disturb the cache, on any run. */
  lemma {:induction false} NeverMarkedStale(states: seq<State>, events: seq<Event>, refresh: int, period: int, n: nat)
    requires Run(states, events, refresh, period) && n < |states|
    requires refresh > 0 && refresh + period <= STALE_SECONDS
    ensures Coherent(states[n], refresh) && states[n].t.row.vm != StaleVm
    ensures n < |events| && events[n].Watchdog? ==> states[n + 1] == states[n]
  {
    if n > 0 {
      NeverMarkedStale(states, events, refresh, period, n - 1);
      var e := events[n - 1];
      if e.AgentTick? { TickRefinesNaive(states[n - 1].t, e.p, e.now, refresh, e.a); }
    }
  }

  ghost predicate AlwaysFresh(refresh: int, period: int) {
    forall states: seq<State>, events: seq<Event> | Run(states, events, refresh, period) ::
      forall i | 0 <= i < |states| :: states[i].t.row.vm != StaleVm
  }

  /** A tenant written at time 0 and then probed unchanged every second until `n`. */
  lemma {:induction false} QuietRun(refresh: int, period: int, n: nat) returns (states: seq<State>, events: seq<Event>)
    requires n < refresh && period >= 1
    ensures Run(states, events, refresh, period) && |events| == n
    ensures states[n] == State(Track(true, Some(Written(Down, AppDown, 0)), Row(Running, Down, AppDown, Some(0))), n)
  {
    if n == 0 {
      states := [State(Track(true, Some(Written(Down, AppDown, 0)), Row(Running, Down, AppDown, Some(0))), 0)];
      events := [];
    } else {
      states, events := QuietRun(refresh, period, n - 1);
      var e := AgentTick(n, Probe("t", Down, AppDown), Answer(true, false, true));
      states, events := states + [Step(states[n - 1], e, refresh)], events + [e];
    }
  }

  /** The bound is exact for polls at most a period apart: the watchdog spares a healthy agent's tenants
      on every such run if and only if refresh plus period stays within the staleness bound. */
  lemma FreshnessIsExact(refresh: int, period: int)
    requires refresh > 0 && period > 0
    ensures AlwaysFresh(refresh, period) <==> refresh + period <= STALE_SECONDS
  {
    if refresh + period <= STALE_SECONDS {
      forall states: seq<State>, events: seq<Event>, i | Run(states, events, refresh, period) && 0 <= i < |states|
        ensures states[i].t.row.vm != StaleVm
      {
        NeverMarkedStale(states, events, refresh, period, i);
      }
    } else {
      var n := refresh - 1;
      var states, events := QuietRun(refresh, period, n);
      var e := Watchdog(n + period);
      var states', events' := states + [Step(states[n], e, refresh)], events + [e];
      assert Run(states', events', refresh, period);
      assert states'[n + 1].t.row.vm == StaleVm;
    }
  }

  // ---- Polls exactly a period apart ----

  /** A run that starts with a write and polls regularly. */
  ghost predicate RegularRun(states: seq<State>, events: seq<Event>, refresh: int, period: int) {
    Run(states, events, refresh, period) && states[0].tick == states[0].t.last.value.at &&
    forall i | 0 <= i < |events| && events[i].AgentTick? :: events[i].now == states[i].tick + period
  }

  /** The age at which a regular poll next writes, for health that does not change: the refresh
      interval, rounded up to a poll. */
  function WriteAge(age: int, refresh: int, period: int): (w: int)
    requires period > 0
    ensures w >= age && w >= refresh && (age < refresh ==> w < refresh + period)
    decreases refresh - age
  {
    if age >= refresh then age else WriteAge(age + period, refresh, period)
  }

  lemma {:induction false} RegularAges(states: seq<State>, events: seq<Event>, refresh: int, period: int, n: nat)
    requires RegularRun(states, events, refresh, period) && n < |states|
    requires refresh > 0 && period > 0 && WriteAge(0, refresh, period) < STALE_SECONDS
    ensures Coherent(states[n], refresh) && states[n].t.row.vm != StaleVm
    ensures WriteAge(states[n].tick - states[n].t.last.value.at, refresh, period) == WriteAge(0, refresh, period)
  {
    if n > 0 {
      RegularAges(states, events, refresh, period, n - 1);
      var e := events[n - 1];
      if e.AgentTick? { TickRefinesNaive(states[n - 1].t, e.p, e.now, refresh, e.a); }
    }
  }

  ghost predicate AlwaysFreshWhenRegular(refresh: int, period: int) {
    forall states: seq<State>, events: seq<Event> | RegularRun(states, events, refresh, period) ::
      forall i | 0 <= i < |states| :: states[i].t.row.vm != StaleVm
  }

  /** Unchanged health, polled regularly until the next poll would write; the watchdog sweeps just
      before that poll. */
  lemma RegularStaleRun(refresh: int, period: int) returns (states: seq<State>, events: seq<Event>)
    requires refresh > 0 && period > 0 && WriteAge(0, refresh, period) >= STALE_SECONDS
    ensures RegularRun(states, events, refresh, period) && states[|events|].t.row.vm == StaleVm
  {
    var t := Track(true, Some(Written(Down, AppDown, 0)), Row(Running, Down, AppDown, Some(0)));
    var age := 0;
    states, events := [State(t, 0)], [];
    while age + period < refresh
      invariant 0 <= age < refresh && WriteAge(age, refresh, period) == WriteAge(0, refresh, period)
      invariant RegularRun(states, events, refresh, period) && states[|events|] == State(t, age)
    {
      var e := AgentTick(age + period, Probe("t", Down, AppDown), Answer(true, false, true));
      states, events := states + [Step(states[|events|], e, refresh)], events + [e];
      age := age + period;
    }
    var sweep := Watchdog(age + period);
    states, events := states + [Step(states[|events|], sweep, refresh)], events + [sweep];
  }

  /** For regular polls the bound is exact with the refresh interval rounded up to a poll: refresh 100
      and polls every 25 s are fine, although they add up to more than 120. */
  lemma RegularFreshnessIsExact(refresh: int, period: int)
    requires refresh > 0 && period > 0
    ensures AlwaysFreshWhenRegular(refresh, period) <==> WriteAge(0, refresh, period) < STALE_SECONDS
  {
    if WriteAge(0, refresh, period) < STALE_SECONDS {
      forall states: seq<State>, events: seq<Event>, i | RegularRun(states, events, refresh, period) && 0 <= i < |states|
        ensures states[i].t.row.vm != StaleVm
      {
        RegularAges(states, events, refresh, period, i);
      }
    } else {
      var states, events := RegularStaleRun(refresh, period);
    }
  }

  /** The refresh interval is clamped to 110 s; the default is 60 s and the agent polls every 15 s. */
  function Refresh(configured: int): int { if configured < 110 then configured else 110 }

  /** The defaults are safe.  The clamp alone is not, although it is meant to make every configured
      value safe: at 110 s and a 15 s poll a healthy tenant can be marked stale, even if no poll is
      ever early or late. */
  lemma DefaultsAreFreshClampIsNotEnough(configured: int)
    requires configured >= 110
    ensures AlwaysFresh(Refresh(60), 15) && !AlwaysFresh(Refresh(configured), 15)
    ensures !AlwaysFreshWhenRegular(Refresh(configured), 15)
  {
    FreshnessIsExact(Refresh(60), 15);
    FreshnessIsExact(Refresh(configured), 15);
    RegularFreshnessIsExact(Refresh(configured), 15);
    assert WriteAge(105, 110, 15) == 120;
    assert WriteAge(90, 110, 15) == WriteAge(75, 110, 15) == WriteAge(60, 110, 15) == 120;
    assert WriteAge(45, 110, 15) == WriteAge(30, 110, 15) == WriteAge(15, 110, 15) == 120;
  }
}
