/** Idle-host reclaim: the scaler's sweep over the hosts table, together with the writers that
    fill and empty hosts.

    A host is stamped when it is first seen empty, marked idle once the stamp is old enough, and
    terminated by a later visit.  One visit of one host is one step; a delete (counter update and
    `idle_since`) is one step. */
module IdleReclaim {
  import opened Tables
  import HostRows

  /** `IDLE_TIMEOUT` in seconds and the group's MinSize. */
  datatype Settings = Settings(timeout: int, minSize: int, cfg: Config)

  datatype State = State(rows: map<HostId, Host>, desired: int, terminated: seq<HostId>)

  datatype Event =
    | Register(id: HostId, az: string, vcpu: int, mem: int, stamped: bool)
    | ReserveSlot(seen: Host, vcpu: int, mem: int)
    | Delete(id: HostId, vcpu: int, mem: int)
    | Release(id: HostId, vcpu: int, mem: int)
    | MoveIn(id: HostId, vmNum: int, vcpu: int, mem: int)   // counter bump of a migration or failover
    | MoveOut(id: HostId, vcpu: int, mem: int)
    | Drain(id: HostId)
    | SetDesired(desired: int)
    | Visit(seen: Host, accepted: bool)                     // the scaler's step for one scanned row

  function Vms(h: Host): int {
    h.vmCount.GetOr(0)
  }

  /** The row as one visit leaves it. */
  function RowAfter(row: Host, seen: Host, now: int, st: Settings): Host {
    if Vms(seen) > 0 then
      if seen.status == Idle then row.(status := Active) else row
    else if seen.status == Active then
      if seen.idleSince.None? then row.(idleSince := Some(now))
      else if now - seen.idleSince.value >= st.timeout then row.(status := Idle)
      else row
    else row
  }

  predicate Terminates(s: State, seen: Host, accepted: bool, st: Settings) {
    Vms(seen) <= 0 && seen.status == Idle && s.desired > st.minSize && accepted
  }

  function VisitHost(s: State, seen: Host, accepted: bool, now: int, st: Settings): State {
    var row := RowOf(s.rows, seen.id);
    var row' := RowAfter(row, seen, now, st);
    var s' := if row' == row then s else s.(rows := s.rows[seen.id := row']);
    if Terminates(s, seen, accepted, st) then
      s'.(desired := s.desired - 1, terminated := s.terminated + [seen.id])
    else s'
  }

  /** Only a VM that is booked on a host leaves it. */
  ghost predicate Enabled(s: State, e: Event, st: Settings) {
    match e
    case Register(id, _, _, _, _) => id !in s.rows
    case ReserveSlot(_, _, _) => true
    case Delete(id, _, _) => id in s.rows && Vms(s.rows[id]) > 0
    case Release(id, _, _) => id in s.rows && Vms(s.rows[id]) > 0
    case MoveIn(id, _, _, _) => id in s.rows
    case MoveOut(id, _, _) => id in s.rows && Vms(s.rows[id]) > 0
    case Drain(id) => id in s.rows
    case SetDesired(n) => n >= st.minSize
    case Visit(seen, _) => seen.id in s.rows && s.rows[seen.id] == seen
  }

  function Step(s: State, e: Event, now: int, st: Settings): State {
    match e
    case Register(id, az, vcpu, mem, stamped) =>
      s.(rows := s.rows[id := Host(id, Active, az, None, Some(vcpu), Some(mem), Some(0), Some(0),
                                   Some(0), Some(1), if stamped then Some(now) else None, None)])
    case ReserveSlot(seen, vcpu, mem) =>
      var r := HostRows.Reserve(RowOf(s.rows, seen.id), seen, vcpu, mem, st.cfg);
      if r.Booked? then s.(rows := s.rows[seen.id := r.row]) else s
    case Delete(id, vcpu, mem) =>
      (match HostRows.AddLoad(RowOf(s.rows, id), -vcpu, -mem, -1)
       case None => s
       case Some(row) =>
         s.(rows := s.rows[id := if Vms(row) == 0 then row.(idleSince := Some(now)) else row]))
    case Release(id, vcpu, mem) =>
      (match HostRows.AddLoad(RowOf(s.rows, id), -vcpu, -mem, -1)
       case None => s
       case Some(row) => s.(rows := s.rows[id := row]))
    case MoveIn(id, n, vcpu, mem) => s.(rows := s.rows[id := HostRows.Bump(RowOf(s.rows, id), n, vcpu, mem)])
    case MoveOut(id, vcpu, mem) =>
      s.(rows := s.rows[id := HostRows.AddLoadOrZero(RowOf(s.rows, id), -vcpu, -mem, -1)])
    case Drain(id) => s.(rows := s.rows[id := RowOf(s.rows, id).(status := Draining)])
    case SetDesired(n) => s.(desired := n)
    case Visit(seen, accepted) => VisitHost(s, seen, accepted, now, st)
  }

  // ---- The sweep ----

  function SweepFrom(s: State, scan: seq<Host>, accepted: seq<bool>, now: int, st: Settings): State
    requires |accepted| == |scan|
  {
    if scan == [] then s
    else
      var n := |scan| - 1;
      VisitHost(SweepFrom(s, scan[..n], accepted[..n], now, st), scan[n], accepted[n], now, st)
  }

  class Scaler {
    var rows: map<HostId, Host>
    var desired: int
    var terminated: seq<HostId>

    function Now(): State
      reads this
    {
      State(rows, desired, terminated)
    }

    constructor (rows: map<HostId, Host>, desired: int)
      ensures Now() == State(rows, desired, [])
    {
      this.rows, this.desired, this.terminated := rows, desired, [];
    }

    method SetStatus(id: HostId, status: HostStatus)
      modifies this`rows
      ensures rows == old(rows)[id := RowOf(old(rows), id).(status := status)]
    {
      rows := rows[id := RowOf(rows, id).(status := status)];
    }

    /** The host loop of `lambda_handler`; `accepted[i]` is the answer of the Auto Scaling group
        to a termination of the i-th host. */
    method Sweep(scan: seq<Host>, accepted: seq<bool>, now: int, st: Settings)
      requires |accepted| == |scan|
      requires FromTable(rows, scan)
      modifies this
      ensures Now() == SweepFrom(old(Now()), scan, accepted, now, st)
    {
      var i := 0;
      while i < |scan|
        invariant 0 <= i <= |scan|
        invariant Now() == SweepFrom(old(Now()), scan[..i], accepted[..i], now, st)
      {
        SweepLeavesRest(old(Now()), scan, accepted, now, st, i);
        assert scan[..i + 1][..i] == scan[..i] && accepted[..i + 1][..i] == accepted[..i];
        VisitOne(scan[i], accepted[i], now, st);
        i := i + 1;
      }
      assert scan[..i] == scan && accepted[..i] == accepted;
    }

    method VisitOne(h: Host, accepted: bool, now: int, st: Settings)
      requires h.id in rows && rows[h.id] == h
      modifies this
      ensures Now() == VisitHost(old(Now()), h, accepted, now, st)
    {
      if Vms(h) > 0 {
        if h.status == Idle {
          SetStatus(h.id, Active);
        }
        return;
      }
      if h.status == Active {
        if h.idleSince.None? {
          rows := rows[h.id := rows[h.id].(idleSince := Some(now))];
        } else if now - h.idleSince.value >= st.timeout {
          SetStatus(h.id, Idle);
        }
      } else if h.status == Idle {
        if desired > st.minSize {
          if accepted {
            desired := desired - 1;
            terminated := terminated + [h.id];
          }
        }
      }
    }
  }

  /** What a scan of the table returns: rows of the table, each once. */
  ghost predicate FromTable(rows: map<HostId, Host>, scan: seq<Host>) {
    (forall h <- scan :: h.id in rows && rows[h.id] == h) &&
    (forall i, j | 0 <= i < j < |scan| :: scan[i].id != scan[j].id)
  }

  /** The rows after the first `i` visits: those hosts as one visit leaves them, the rest as scanned. */
  ghost predicate Visited(before: map<HostId, Host>, after: map<HostId, Host>, scan: seq<Host>, i: nat,
                          now: int, st: Settings)
    requires i <= |scan|
  {
    after.Keys == before.Keys &&
    (forall k | 0 <= k < i :: scan[k].id in after && after[scan[k].id] == RowAfter(scan[k], scan[k], now, st)) &&
    (forall id <- before | (forall k | 0 <= k < i :: scan[k].id != id) :: after[id] == before[id])
  }

  lemma VisitTouchesOne(s: State, h: Host, accepted: bool, now: int, st: Settings)
    requires h.id in s.rows && s.rows[h.id] == h
    ensures VisitHost(s, h, accepted, now, st).rows == s.rows[h.id := RowAfter(h, h, now, st)]
  {
    assert s.rows[h.id := h] == s.rows;
  }

  /** A sweep meets every row as it scanned it: the earlier visits touch other rows only. */
  lemma {:induction false} SweepLeavesRest(s: State, scan: seq<Host>, accepted: seq<bool>, now: int,
                                           st: Settings, i: nat)
    requires |accepted| == |scan| && FromTable(s.rows, scan) && i <= |scan|
    ensures var r := SweepFrom(s, scan[..i], accepted[..i], now, st).rows;
            Visited(s.rows, r, scan, i, now, st) &&
            (i < |scan| ==> scan[i].id in r && r[scan[i].id] == scan[i])
  {
    if i < |scan| {
      assert scan[i] in scan;
    }
    if i > 0 {
      var t := SweepFrom(s, scan[..i - 1], accepted[..i - 1], now, st);
      SweepLeavesRest(s, scan, accepted, now, st, i - 1);
      assert scan[..i][..i - 1] == scan[..i - 1] && accepted[..i][..i - 1] == accepted[..i - 1];
      VisitTouchesOne(t, scan[i - 1], accepted[i - 1], now, st);
      OneMoreVisited(s.rows, t.rows, scan, i, now, st);
    }
  }

  lemma OneMoreVisited(before: map<HostId, Host>, after: map<HostId, Host>, scan: seq<Host>, i: nat,
                       now: int, st: Settings)
    requires 0 < i <= |scan| && FromTable(before, scan) && Visited(before, after, scan, i - 1, now, st)
    ensures var h := scan[i - 1];
            Visited(before, after[h.id := RowAfter(h, h, now, st)], scan, i, now, st)
  {
    assert scan[i - 1] in scan;
  }

  ghost predicate IdleInScan(scan: seq<Host>, id: HostId) {
    exists h <- scan :: h.id == id && h.status == Idle && Vms(h) <= 0
  }

  /** From `s` to `s'` only hosts scanned as idle and empty were terminated, the desired capacity
      fell by one for each, and not below MinSize. */
  ghost predicate Spares(s: State, s': State, scan: seq<Host>, st: Settings) {
    st.minSize <= s'.desired <= s.desired && s.desired - s'.desired == |s'.terminated| - |s.terminated| &&
    s.terminated <= s'.terminated &&
    forall k | |s.terminated| <= k < |s'.terminated| :: IdleInScan(scan, s'.terminated[k])
  }

  /** One sweep, whatever the Auto Scaling group answers. */
  lemma {:induction false} SweepSparesMinSize(s: State, scan: seq<Host>, accepted: seq<bool>, now: int,
                                              st: Settings)
    requires |accepted| == |scan| && s.desired >= st.minSize
    ensures Spares(s, SweepFrom(s, scan, accepted, now, st), scan, st)
  {
    if scan != [] {
      var n := |scan| - 1;
      var t := SweepFrom(s, scan[..n], accepted[..n], now, st);
      SweepSparesMinSize(s, scan[..n], accepted[..n], now, st);
      VisitSpares(s, t, scan, accepted[n], now, st);
    }
  }

  lemma VisitSpares(s: State, t: State, scan: seq<Host>, accepted: bool, now: int, st: Settings)
    requires scan != [] && Spares(s, t, scan[..|scan| - 1], st)
    ensures Spares(s, VisitHost(t, scan[|scan| - 1], accepted, now, st), scan, st)
  {
    var h := scan[|scan| - 1];
    assert h in scan;
    var s' := VisitHost(t, h, accepted, now, st);
    forall k | |s.terminated| <= k < |s'.terminated| ensures IdleInScan(scan, s'.terminated[k]) {
      if k < |t.terminated| {
        assert IdleInScan(scan[..|scan| - 1], t.terminated[k]);
      }
    }
  }

  // ---- Runs ----

  /** Any interleaving, starting from an empty fleet. */
  ghost predicate Run(states: seq<State>, events: seq<Event>, times: seq<int>, st: Settings) {
    |states| == |events| + 1 && |times| == |events| &&
    states[0].rows == map[] && states[0].desired >= st.minSize &&
    (forall i, j | 0 <= i <= j < |times| :: times[i] <= times[j]) &&
    (forall i | 0 <= i < |events| ::
       Enabled(states[i], events[i], st) && states[i + 1] == Step(states[i], events[i], times[i], st))
  }

  predicate Empty(s: State, id: HostId) {
    id in s.rows && Vms(s.rows[id]) == 0
  }

  /** The step books a new tenant on the host. */
  predicate Books(s: State, e: Event, id: HostId, st: Settings) {
    e.ReserveSlot? && e.seen.id == id &&
    HostRows.Reserve(RowOf(s.rows, id), e.seen, e.vcpu, e.mem, st.cfg).Booked?
  }

  predicate MovesIn(e: Event, id: HostId) {
    e.MoveIn? && e.id == id
  }

  predicate Marks(s: State, e: Event, now: int, id: HostId, st: Settings) {
    e.Visit? && e.seen.id == id && id in s.rows && s.rows[id] == e.seen && Vms(e.seen) <= 0 &&
    e.seen.status == Active && e.seen.idleSince.Some? && now - e.seen.idleSince.value >= st.timeout
  }

  ghost predicate RowsOk(s: State) {
    forall id <- s.rows :: s.rows[id].id == id && s.rows[id].vmCount.Some? && Vms(s.rows[id]) >= 0
  }

  lemma StepKeepsRowsOk(s: State, e: Event, now: int, st: Settings)
    requires RowsOk(s) && Enabled(s, e, st)
    ensures RowsOk(Step(s, e, now, st)) && s.rows.Keys <= Step(s, e, now, st).rows.Keys
  {
  }

  lemma {:induction false} RunKeepsRowsOk(states: seq<State>, events: seq<Event>, times: seq<int>, st: Settings, i: nat)
    requires Run(states, events, times, st) && i < |states|
    ensures RowsOk(states[i])
  {
    if i > 0 {
      RunKeepsRowsOk(states, events, times, st, i - 1);
      StepKeepsRowsOk(states[i - 1], events[i - 1], times[i - 1], st);
    }
  }

  /** How one step can leave a stamp: it writes it, on an empty host, or finds it and books nothing. */
  lemma StampStep(s: State, e: Event, now: int, st: Settings, id: HostId)
    requires RowsOk(s) && Enabled(s, e, st)
    requires var r := Step(s, e, now, st).rows; id in r && r[id].idleSince.Some?
    ensures var s' := Step(s, e, now, st);
            (s'.rows[id].idleSince == Some(now) && Empty(s', id)) ||
            (id in s.rows && s.rows[id].idleSince == s'.rows[id].idleSince && !Books(s, e, id, st))
  {
  }

  /** How one step can leave a host idle. */
  lemma IdleStep(s: State, e: Event, now: int, st: Settings, id: HostId)
    requires RowsOk(s) && Enabled(s, e, st)
    requires var r := Step(s, e, now, st).rows; id in r && r[id].status == Idle
    ensures Marks(s, e, now, id, st) ||
            (id in s.rows && s.rows[id].status == Idle && !Books(s, e, id, st))
  {
  }

  /** A stamp was written when the host was empty, and nothing has been booked there since. */
  lemma {:induction false} StampedAt(states: seq<State>, events: seq<Event>, times: seq<int>, st: Settings,
                                     i: nat, id: HostId) returns (j: nat)
    requires Run(states, events, times, st) && i < |states|
    requires id in states[i].rows && states[i].rows[id].idleSince.Some?
    ensures j < i && times[j] == states[i].rows[id].idleSince.value && Empty(states[j + 1], id)
    ensures forall k | j < k < i :: !Books(states[k], events[k], id, st)
  {
    RunKeepsRowsOk(states, events, times, st, i - 1);
    StampStep(states[i - 1], events[i - 1], times[i - 1], st, id);
    if states[i].rows[id].idleSince == Some(times[i - 1]) && Empty(states[i], id) {
      j := i - 1;
    } else {
      j := StampedAt(states, events, times, st, i - 1, id);
    }
  }

  /** A host is idle because some visit marked it so, and nothing has been booked there since. */
  lemma {:induction false} MarkedAt(states: seq<State>, events: seq<Event>, times: seq<int>, st: Settings,
                                    i: nat, id: HostId) returns (j: nat)
    requires Run(states, events, times, st) && i < |states|
    requires id in states[i].rows && states[i].rows[id].status == Idle
    ensures j < i && Marks(states[j], events[j], times[j], id, st)
    ensures forall k | j < k < i :: !Books(states[k], events[k], id, st)
  {
    RunKeepsRowsOk(states, events, times, st, i - 1);
    IdleStep(states[i - 1], events[i - 1], times[i - 1], st, id);
    if Marks(states[i - 1], events[i - 1], times[i - 1], id, st) {
      j := i - 1;
    } else {
      j := MarkedAt(states, events, times, st, i - 1, id);
    }
  }

  /** From an empty start and without bookings, a host stays empty exactly while no VM moves in. */
  lemma {:induction false} EmptyIffNoMoveIn(states: seq<State>, events: seq<Event>, times: seq<int>, st: Settings,
                                            j: nat, i: nat, id: HostId)
    requires Run(states, events, times, st) && j <= i < |states| && Empty(states[j], id)
    requires forall k | j <= k < i :: !Books(states[k], events[k], id, st)
    ensures (forall k | j <= k <= i :: Empty(states[k], id)) <==> (forall k | j <= k < i :: !MovesIn(events[k], id))
  {
    if i > j {
      EmptyIffNoMoveIn(states, events, times, st, j, i - 1, id);
      RunKeepsRowsOk(states, events, times, st, i - 1);
      if forall k | j <= k < i - 1 :: !MovesIn(events[k], id) {
        EmptyStep(states[i - 1], events[i - 1], times[i - 1], st, id);
        assert Empty(states[i], id) <==> !MovesIn(events[i - 1], id);
      } else {
        var k :| j <= k < i - 1 && MovesIn(events[k], id);
        assert !forall k | j <= k <= i - 1 :: Empty(states[k], id);
      }
    }
  }

  lemma EmptyStep(s: State, e: Event, now: int, st: Settings, id: HostId)
    requires RowsOk(s) && Enabled(s, e, st) && Empty(s, id) && !Books(s, e, id, st)
    ensures Empty(Step(s, e, now, st), id) <==> !MovesIn(e, id)
  {
  }

  /** A termination: its host was stamped, at least the timeout later marked idle, and never booked
      between the stamp and the termination.  It was empty all that time exactly if no
      migration or failover put a VM on it: those bump the counters and leave the stamp and
      the idle mark alone. */
  lemma TerminationIsSafeIff(states: seq<State>, events: seq<Event>, times: seq<int>, st: Settings, i: nat)
    returns (stamp: nat, mark: nat)
    requires Run(states, events, times, st) && i < |events|
    requires events[i].Visit? && Terminates(states[i], events[i].seen, events[i].accepted, st)
    ensures var id := events[i].seen.id;
            stamp < mark < i && times[mark] - times[stamp] >= st.timeout &&
            Marks(states[mark], events[mark], times[mark], id, st) &&
            (forall k | stamp < k < i :: !Books(states[k], events[k], id, st)) &&
            ((forall k | stamp < k <= i :: Empty(states[k], id)) <==>
             (forall k | stamp < k < i :: !MovesIn(events[k], id)))
  {
    var id := events[i].seen.id;
    mark := MarkedAt(states, events, times, st, i, id);
    stamp := StampedAt(states, events, times, st, mark, id);
    forall k | stamp < k < i ensures !Books(states[k], events[k], id, st) {
      if k == mark {
        assert events[mark].Visit?;
      }
    }
    EmptyIffNoMoveIn(states, events, times, st, stamp + 1, i, id);
  }

  // ---- Progress ----

  /** A delete that empties a host stamps it then and there. */
  lemma DeleteOfTheLastStamps(s: State, id: HostId, vcpu: int, mem: int, now: int, st: Settings)
    requires RowsOk(s) && Enabled(s, Delete(id, vcpu, mem), st)
    requires s.rows[id].usedVcpu.Some? && s.rows[id].usedMem.Some?
    ensures var s' := Step(s, Delete(id, vcpu, mem), now, st);
            Vms(s'.rows[id]) == Vms(s.rows[id]) - 1 &&
            s'.rows[id].idleSince == if Vms(s.rows[id]) == 1 then Some(now) else s.rows[id].idleSince
  {
  }

  /** Nobody places, moves or drains anything on the host. */
  ghost predicate LeftAlone(states: seq<State>, events: seq<Event>, id: HostId, i: nat, j: nat, st: Settings)
    requires j <= |events| <= |states|
  {
    forall k | i <= k < j ::
      !Books(states[k], events[k], id, st) && !MovesIn(events[k], id) && events[k] != Drain(id)
  }

  /** An empty host on its way out: stamped no later than `latest`, or marked already. */
  predicate Leaving(s: State, id: HostId, latest: int) {
    Empty(s, id) &&
    (s.rows[id].status == Idle ||
     (s.rows[id].status == Active && s.rows[id].idleSince.Some? && s.rows[id].idleSince.value <= latest))
  }

  lemma LeavingStep(s: State, e: Event, now: int, st: Settings, id: HostId, latest: int)
    requires RowsOk(s) && Enabled(s, e, st) && Leaving(s, id, latest)
    requires !Books(s, e, id, st) && !MovesIn(e, id) && e != Drain(id)
    ensures Leaving(Step(s, e, now, st), id, latest)
    ensures s.rows[id].status == Idle ==> Step(s, e, now, st).rows[id].status == Idle
  {
  }

  lemma {:induction false} LeavingOn(states: seq<State>, events: seq<Event>, times: seq<int>, st: Settings,
                                     i: nat, j: nat, id: HostId, latest: int)
    requires Run(states, events, times, st) && i <= j <= |events| && LeftAlone(states, events, id, i, j, st)
    requires Leaving(states[i], id, latest)
    ensures Leaving(states[j], id, latest) && (states[i].rows[id].status == Idle ==> states[j].rows[id].status == Idle)
  {
    if i < j {
      LeavingOn(states, events, times, st, i, j - 1, id, latest);
      RunKeepsRowsOk(states, events, times, st, j - 1);
      LeavingStep(states[j - 1], events[j - 1], times[j - 1], st, id, latest);
    }
  }

  predicate VisitsHost(e: Event, id: HostId) {
    e.Visit? && e.seen.id == id
  }

  /** The first visit of an empty active host stamps it, if it has no stamp from before. */
  lemma FirstVisitStamps(states: seq<State>, events: seq<Event>, times: seq<int>, st: Settings, i: nat, id: HostId)
    requires Run(states, events, times, st) && i < |events| && VisitsHost(events[i], id)
    requires Empty(states[i], id) && states[i].rows[id].status == Active
    ensures Leaving(states[i + 1], id, times[i])
    ensures states[i].rows[id].idleSince.None? ==> states[i + 1].rows[id].idleSince == Some(times[i])
  {
    if states[i].rows[id].idleSince.Some? {
      var j := StampedAt(states, events, times, st, i, id);
    }
  }

  /** Progress: an empty active host that is visited, left alone, and visited again at least the timeout
      later is idle after that second visit. */
  lemma EmptyHostGoesIdle(states: seq<State>, events: seq<Event>, times: seq<int>, st: Settings,
                          i: nat, j: nat, id: HostId)
    requires Run(states, events, times, st) && i < j < |events|
    requires VisitsHost(events[i], id) && VisitsHost(events[j], id) && times[j] - times[i] >= st.timeout
    requires Empty(states[i], id) && states[i].rows[id].status == Active
    requires LeftAlone(states, events, id, i, j, st)
    ensures Empty(states[j + 1], id) && states[j + 1].rows[id].status == Idle
  {
    FirstVisitStamps(states, events, times, st, i, id);
    LeavingOn(states, events, times, st, i + 1, j, id, times[i]);
  }

  /** And a visit after that terminates it, if the group is above MinSize by then and accepts. */
  lemma IdleHostIsTerminated(states: seq<State>, events: seq<Event>, times: seq<int>, st: Settings,
                             j: nat, k: nat, id: HostId)
    requires Run(states, events, times, st) && j <= k < |events|
    requires Empty(states[j], id) && states[j].rows[id].status == Idle && LeftAlone(states, events, id, j, k, st)
    requires VisitsHost(events[k], id) && events[k].accepted && states[k].desired > st.minSize
    ensures states[k + 1].terminated == states[k].terminated + [id] && states[k + 1].desired == states[k].desired - 1
  {
    LeavingOn(states, events, times, st, j, k, id, 0);
  }

  /** A host marked idle that carries a VM again is active after its next visit; one that is visited
      with VMs on it is never stamped, marked or terminated. */
  lemma BusyHostIsActive(states: seq<State>, events: seq<Event>, times: seq<int>, st: Settings, i: nat, id: HostId)
    requires Run(states, events, times, st) && i < |events| && VisitsHost(events[i], id)
    requires id in states[i].rows && Vms(states[i].rows[id]) > 0
    ensures states[i + 1].terminated == states[i].terminated && id in states[i + 1].rows
    ensures states[i + 1].rows[id] ==
            if states[i].rows[id].status == Idle then states[i].rows[id].(status := Active) else states[i].rows[id]
  {
  }

  /** In every run the desired capacity stays at or above MinSize. */
  lemma {:induction false} DesiredStaysAboveMin(states: seq<State>, events: seq<Event>, times: seq<int>,
                                                st: Settings, i: nat)
    requires Run(states, events, times, st) && i < |states|
    ensures states[i].desired >= st.minSize
  {
    if i > 0 {
      DesiredStaysAboveMin(states, events, times, st, i - 1);
    }
  }

  /** The granularity matters: a visit that acts on a scan made before a booking terminates the
      host the tenant was just placed on. */
  lemma StaleVisitTerminatesBusyHost(st: Settings, now: int)
    requires st.minSize < 2 && st.cfg == Config(1.0, 1.0, 0)
    ensures var idle := Host("i-1", Idle, "a", None, Some(8), Some(8192), Some(0), Some(0), Some(0), Some(1),
                             Some(0), None);
            var s := State(map["i-1" := idle], 2, []);
            var busy := Step(s, ReserveSlot(idle, 2, 4096), now, st);
            Vms(busy.rows["i-1"]) == 1 &&
            Step(busy, Visit(idle, true), now, st).terminated == ["i-1"]
  {
    assert Allocatable(8, 1.0) == 8 && Allocatable(8192, 1.0) == 8192;
  }
}
