/** Placement as a transition system over the hosts table, the tenants table and any
    number of concurrent creates.

    Granularity: every DynamoDB update is one step.  A create is broken up at each of its
    table calls (scan, each reservation attempt, the put, the clone rollback's two writes), so
    any number of them interleave with each other and with everything else.  A delete and the sweep
    tick that completes a migration are one step each; so is the commit of a resize, whose checks
    were made earlier, on rows that may have changed since. */
module Plane {
  import opened Tables
  import opened HostRows
  import Capacity

  /** The context a migration records when it starts. */
  datatype Move = Move(source: HostId, target: HostId, vmNum: int)

  datatype Tenant = Tenant(status: TenantStatus, host: Option<HostId>, vmNum: int, vcpu: int, mem: int,
                           move: Option<Move>)

  datatype Pc =
    | Scanning
    | Trying
    | Holding(host: HostId, vmNum: int)      // slot reserved, tenant row not written yet
    | Cloning(host: HostId, tenant: nat)     // row written, clone-data.sh running
    | Releasing(host: HostId, tenant: nat)   // clone failed, slot released, row not yet deleted
    | Placed(tenant: nat)
    | RolledBack(tenant: nat)
    | Queued(tenant: nat)                    // row written with status pending
    | Rejected                               // pinned host has no room: 4xx, nothing written

  /** One `create_tenant` call.  `pin` is the clone source's host or `preferred_host_id`. */
  datatype Create = Create(vcpu: int, mem: int, pin: Option<HostId>, clone: bool,
                           picks: seq<Host>, tried: nat, pc: Pc, bookings: nat, releases: nat)

  /** `issued` records every number handed out, `reserved` the failover numbers not used yet. */
  datatype State = State(hosts: map<HostId, Host>, tenants: seq<Tenant>, creates: seq<Create>,
                         issued: seq<(HostId, int)>, reserved: set<(HostId, int)>)

  datatype Settings = Settings(cfg: Config, attempts: int, topK: int)

  datatype Event =
    | Arrive(vcpu: int, mem: int, pin: Option<HostId>, clone: bool)
    | Scan(c: nat, scan: seq<Host>, picks: seq<Host>)
    | Try(c: nat)
    | GiveUp(c: nat)
    | Put(c: nat)
    | CloneDone(c: nat)
    | CloneRelease(c: nat)
    | CloneMark(c: nat)
    | Delete(t: nat)
    | Resize(t: nat, newVcpu: int, host: HostId, delta: int)   // the commit of a resize
    | SetStatus(t: nat, status: TenantStatus)
    | TtlDelete(t: nat)
    | StartMove(t: nat, target: HostId)
    | FinishMove(t: nat)
    | ReserveFor(h: HostId)
    | Flip(t: nat, target: HostId, vmNum: int)   // queued failovers reserve the number, others do not

  /** Reservations a create may attempt before it queues the tenant. */
  function Limit(pin: Option<HostId>, picks: seq<Host>, attempts: int): nat {
    var tries := if attempts < 1 then 1 else attempts;
    if pin.Some? || |picks| < tries then |picks| else tries
  }

  /** Rows a scan may return: each host at most once, as it was at some moment.  A table scan mixes
      moments, so nothing but the host's size need still be true. */
  ghost predicate ScanOf(hosts: map<HostId, Host>, scan: seq<Host>) {
    Capacity.DistinctIds(scan) &&
    forall h <- scan :: h.id in hosts && h.totalVcpu == hosts[h.id].totalVcpu && h.totalMem == hosts[h.id].totalMem
  }

  /** A pinned create reads one row and takes it or leaves it. */
  ghost predicate IsPinnedPick(picks: seq<Host>, scan: seq<Host>, pin: HostId, vcpu: int, mem: int, cfg: Config) {
    (forall h :: h in picks <==> h in scan && h.id == pin && Capacity.Schedulable(h) &&
                                 Capacity.HostFits(h, vcpu, mem, cfg)) &&
    |picks| <= 1
  }

  /** Python's `x or d` on an integer. */
  function OrElse(x: int, d: int): int {
    if x == 0 then d else x
  }

  ghost predicate Enabled(s: State, e: Event, st: Settings) {
    match e
    case Arrive(_, _, pin, clone) => clone ==> pin.Some?
    case Scan(c, scan, picks) =>
      c < |s.creates| && s.creates[c].pc.Scanning? && ScanOf(s.hosts, scan) &&
      (match s.creates[c].pin
       case None => Capacity.IsPick(picks, scan, s.creates[c].vcpu, s.creates[c].mem, st.cfg, st.topK)
       case Some(h) => IsPinnedPick(picks, scan, h, s.creates[c].vcpu, s.creates[c].mem, st.cfg))
    case Try(c) =>
      c < |s.creates| && s.creates[c].pc.Trying? &&
      s.creates[c].tried < Limit(s.creates[c].pin, s.creates[c].picks, st.attempts)
    case GiveUp(c) =>
      c < |s.creates| && s.creates[c].pc.Trying? &&
      s.creates[c].tried >= Limit(s.creates[c].pin, s.creates[c].picks, st.attempts)
    case Put(c) => c < |s.creates| && s.creates[c].pc.Holding?
    case CloneDone(c) => c < |s.creates| && s.creates[c].pc.Cloning?
    case CloneRelease(c) => c < |s.creates| && s.creates[c].pc.Cloning?
    case CloneMark(c) => c < |s.creates| && s.creates[c].pc.Releasing?
    case Delete(t) => t < |s.tenants| && s.tenants[t].status != TenantStatus.Deleted
    case Resize(t, _, h, delta) => t < |s.tenants| && h in s.hosts && delta > 0
    case SetStatus(t, status) =>
      t < |s.tenants| && status !in {TenantStatus.Deleted, Migrating}
    case TtlDelete(t) => t < |s.tenants| && s.tenants[t].status !in {Stopped, TenantStatus.Deleted}
    case StartMove(t, target) =>
      t < |s.tenants| && s.tenants[t].host.Some? && s.tenants[t].host != Some(target) && target in s.hosts &&
      s.hosts[target].status !in {Draining, Gone} &&
      Capacity.HostFits(s.hosts[target], s.tenants[t].vcpu, s.tenants[t].mem, st.cfg)
    case FinishMove(t) => t < |s.tenants| && s.tenants[t].status == Migrating && s.tenants[t].move.Some?
    case ReserveFor(h) => h in s.hosts
    case Flip(t, target, _) => t < |s.tenants| && target in s.hosts
  }

  /** An arithmetic update of the load counters; rejected by DynamoDB on a missing counter. */
  function Charge(hosts: map<HostId, Host>, id: HostId, vcpu: int, mem: int, vms: int): map<HostId, Host> {
    match AddLoad(RowOf(hosts, id), vcpu, mem, vms)
    case Some(row) => hosts[id := row]
    case None => hosts
  }

  function Step(s: State, e: Event, st: Settings): State
    requires Enabled(s, e, st)
  {
    match e
    case Arrive(vcpu, mem, pin, clone) =>
      s.(creates := s.creates + [Create(vcpu, mem, pin, clone, [], 0, Scanning, 0, 0)])
    case Scan(c, _, picks) =>
      s.(creates := s.creates[c := s.creates[c].(picks := picks, pc := Trying)])
    case Try(c) =>
      var k := s.creates[c];
      var seen := k.picks[k.tried];
      (match Reserve(RowOf(s.hosts, seen.id), seen, k.vcpu, k.mem, st.cfg)
       case Booked(row, n) =>
         s.(hosts := s.hosts[seen.id := row], issued := s.issued + [(seen.id, n)],
            creates := s.creates[c := k.(pc := Holding(seen.id, n), bookings := k.bookings + 1)])
       case _ => s.(creates := s.creates[c := k.(tried := k.tried + 1)]))
    case GiveUp(c) =>
      var k := s.creates[c];
      if k.pin.Some? && k.picks == [] then s.(creates := s.creates[c := k.(pc := Rejected)])
      else s.(tenants := s.tenants + [Tenant(Pending, None, 0, k.vcpu, k.mem, None)],
              creates := s.creates[c := k.(pc := Queued(|s.tenants|))])
    case Put(c) =>
      var k := s.creates[c];
      s.(tenants := s.tenants + [Tenant(Creating, Some(k.pc.host), k.pc.vmNum, k.vcpu, k.mem, None)],
         creates := s.creates[c := k.(pc := if k.clone then Cloning(k.pc.host, |s.tenants|)
                                            else Placed(|s.tenants|))])
    case CloneDone(c) =>
      s.(creates := s.creates[c := s.creates[c].(pc := Placed(s.creates[c].pc.tenant))])
    case CloneRelease(c) =>
      var k := s.creates[c];
      s.(hosts := Charge(s.hosts, k.pc.host, -k.vcpu, -k.mem, -1),
         creates := s.creates[c := k.(pc := Releasing(k.pc.host, k.pc.tenant), releases := k.releases + 1)])
    case CloneMark(c) =>
      var k := s.creates[c];
      var t := k.pc.tenant;
      s.(tenants := if t < |s.tenants| then s.tenants[t := s.tenants[t].(status := TenantStatus.Deleted)] else s.tenants,
         creates := s.creates[c := k.(pc := RolledBack(t))])
    case Delete(t) =>
      var x := s.tenants[t];
      s.(hosts := if x.host.Some? then Charge(s.hosts, x.host.value, -x.vcpu, -x.mem, -1) else s.hosts,
         tenants := s.tenants[t := x.(status := TenantStatus.Deleted)])
    case Resize(t, v, h, delta) =>
      s.(hosts := Charge(s.hosts, h, delta, 0, 0), tenants := s.tenants[t := s.tenants[t].(vcpu := v)])
    case SetStatus(t, status) => s.(tenants := s.tenants[t := s.tenants[t].(status := status, move := None)])
    case TtlDelete(t) => s.(tenants := s.tenants[t := s.tenants[t].(status := TenantStatus.Deleted)])
    case StartMove(t, target) =>
      var x := s.tenants[t];
      s.(tenants := s.tenants[t := x.(status := Migrating,
           move := Some(Move(x.host.value, target, s.hosts[target].nextVmNum.GetOr(1))))])
    case FinishMove(t) =>
      var x := s.tenants[t];
      var m := x.move.value;
      var left := s.hosts[m.source := AddLoadOrZero(RowOf(s.hosts, m.source), -x.vcpu, -x.mem, -1)];
      s.(hosts := left[m.target := Bump(RowOf(left, m.target), m.vmNum, x.vcpu, x.mem)],
         tenants := s.tenants[t := x.(status := Running, host := Some(m.target), vmNum := m.vmNum, move := None)])
    case ReserveFor(h) =>
      var (row, n) := ReserveNumber(RowOf(s.hosts, h));
      s.(hosts := s.hosts[h := row], issued := s.issued + [(h, n)], reserved := s.reserved + {(h, n)})
    case Flip(t, target, n) =>
      var x := s.tenants[t];
      s.(hosts := s.hosts[target := Bump(RowOf(s.hosts, target), n, OrElse(x.vcpu, 2), OrElse(x.mem, 4096))],
         tenants := s.tenants[t := x.(status := Running, host := Some(target), vmNum := n)],
         reserved := s.reserved - {(target, n)})
  }

  // ---- Runs ----

  /** A run: `states[i+1]` is `states[i]` after `events[i]`. */
  ghost predicate Run(states: seq<State>, events: seq<Event>, st: Settings) {
    |states| == |events| + 1 && Inv(states[0]) &&
    forall i | 0 <= i < |events| ::
      Enabled(states[i], events[i], st) && states[i + 1] == Step(states[i], events[i], st)
  }

  /** What every write leaves alone or in order on the hosts table. */
  ghost predicate Inv(s: State) {
    (forall id <- s.hosts :: s.hosts[id].id == id && Published(s.hosts[id])) &&
    (forall t | 0 <= t < |s.tenants| :: TenantOk(s, s.tenants[t])) &&
    (forall c | 0 <= c < |s.creates| :: CreateOk(s, s.creates[c])) &&
    (forall p <- s.reserved :: p.0 in s.hosts)
  }

  ghost predicate TenantOk(s: State, x: Tenant) {
    (x.host.Some? ==> x.host.value in s.hosts) &&
    (x.move.Some? ==> MoveOk(s, x.move.value))
  }

  ghost predicate MoveOk(s: State, m: Move) {
    m.source in s.hosts && m.target in s.hosts && m.source != m.target
  }

  ghost predicate CreateOk(s: State, k: Create) {
    (k.clone ==> k.pin.Some?) &&
    (forall p <- k.picks :: p.id in s.hosts && p.totalVcpu == s.hosts[p.id].totalVcpu &&
                            p.totalMem == s.hosts[p.id].totalMem) &&
    (match k.pc
     case Holding(h, _) => h in s.hosts && k.bookings == 1 && k.releases == 0
     case Cloning(h, t) => h in s.hosts && t < |s.tenants| && k.bookings == 1 && k.releases == 0
     case Releasing(h, t) => h in s.hosts && t < |s.tenants| && k.bookings == 1 && k.releases == 1
     case Placed(_) => k.bookings == 1 && k.releases == 0
     case RolledBack(_) => k.bookings == 1 && k.releases == 1
     case _ => k.bookings == 0 && k.releases == 0)
  }

  /** The host rows `after` are the rows `before`, counters and status aside. */
  ghost predicate SameFleet(before: map<HostId, Host>, after: map<HostId, Host>) {
    after.Keys == before.Keys &&
    forall id <- before :: after[id].id == id && Published(after[id]) &&
                           after[id].totalVcpu == before[id].totalVcpu &&
                           after[id].totalMem == before[id].totalMem
  }

  /** A step seen from one host: what becomes of its row. */
  function RowAfter(s: State, e: Event, st: Settings, h: HostId): Host
    requires h in s.hosts && Enabled(s, e, st)
  {
    var row := s.hosts[h];
    match e
    case Try(c) =>
      var k := s.creates[c];
      var r := Reserve(row, k.picks[k.tried], k.vcpu, k.mem, st.cfg);
      if k.picks[k.tried].id == h && r.Booked? then r.row else row
    case CloneRelease(c) =>
      var k := s.creates[c];
      if k.pc.host == h then AddLoad(row, -k.vcpu, -k.mem, -1).GetOr(row) else row
    case Delete(t) =>
      var x := s.tenants[t];
      if x.host == Some(h) then AddLoad(row, -x.vcpu, -x.mem, -1).GetOr(row) else row
    case Resize(_, _, g, delta) => if g == h then AddLoad(row, delta, 0, 0).GetOr(row) else row
    case FinishMove(t) =>
      var x := s.tenants[t];
      var m := x.move.value;
      if m.target == h then Bump(row, m.vmNum, x.vcpu, x.mem)
      else if m.source == h then AddLoadOrZero(row, -x.vcpu, -x.mem, -1) else row
    case ReserveFor(g) => if g == h then ReserveNumber(row).0 else row
    case Flip(t, target, n) =>
      var x := s.tenants[t];
      if target == h then Bump(row, n, OrElse(x.vcpu, 2), OrElse(x.mem, 4096)) else row
    case _ => row
  }

  lemma StepKeepsHosts(s: State, e: Event, st: Settings)
    requires Inv(s) && Enabled(s, e, st)
    ensures Step(s, e, st).hosts.Keys == s.hosts.Keys
  {
    match e
    case Try(c) => assert CreateOk(s, s.creates[c]) && s.creates[c].picks[s.creates[c].tried] in s.creates[c].picks;
    case CloneRelease(c) => assert CreateOk(s, s.creates[c]);
    case Delete(t) => assert TenantOk(s, s.tenants[t]);
    case FinishMove(t) => assert TenantOk(s, s.tenants[t]) && MoveOk(s, s.tenants[t].move.value);
    case _ =>
  }

  lemma StepRow(s: State, e: Event, st: Settings, h: HostId)
    requires Inv(s) && Enabled(s, e, st) && h in s.hosts
    ensures h in Step(s, e, st).hosts && Step(s, e, st).hosts[h] == RowAfter(s, e, st, h)
  {
    StepKeepsHosts(s, e, st);
    if e.FinishMove? {
      FinishMoveRow(s, e.t, st, h);
    }
  }

  lemma FinishMoveRow(s: State, t: nat, st: Settings, h: HostId)
    requires Inv(s) && Enabled(s, FinishMove(t), st) && h in s.hosts
    ensures h in Step(s, FinishMove(t), st).hosts
    ensures Step(s, FinishMove(t), st).hosts[h] == RowAfter(s, FinishMove(t), st, h)
  {
    assert TenantOk(s, s.tenants[t]) && MoveOk(s, s.tenants[t].move.value);
  }

  lemma RowKeepsShape(s: State, e: Event, st: Settings, h: HostId)
    requires Enabled(s, e, st) && h in s.hosts && s.hosts[h].id == h && Published(s.hosts[h])
    ensures var row := RowAfter(s, e, st, h);
            row.id == h && Published(row) && row.totalVcpu == s.hosts[h].totalVcpu &&
            row.totalMem == s.hosts[h].totalMem
  {
  }

  lemma StepKeepsFleet(s: State, e: Event, st: Settings)
    requires Inv(s) && Enabled(s, e, st)
    ensures SameFleet(s.hosts, Step(s, e, st).hosts)
  {
    StepKeepsHosts(s, e, st);
    forall h <- s.hosts ensures h in Step(s, e, st).hosts && Step(s, e, st).hosts[h] == RowAfter(s, e, st, h) {
      StepRow(s, e, st, h);
    }
    forall h <- s.hosts
      ensures var row := RowAfter(s, e, st, h);
              row.id == h && Published(row) && row.totalVcpu == s.hosts[h].totalVcpu &&
              row.totalMem == s.hosts[h].totalMem
    {
      RowKeepsShape(s, e, st, h);
    }
  }

  /** The create a step advances, if any. */
  function Actor(e: Event): Option<nat> {
    match e
    case Scan(c, _, _) => Some(c)
    case Try(c) => Some(c)
    case GiveUp(c) => Some(c)
    case Put(c) => Some(c)
    case CloneDone(c) => Some(c)
    case CloneRelease(c) => Some(c)
    case CloneMark(c) => Some(c)
    case _ => None
  }

  lemma ActorStaysOk(s: State, e: Event, st: Settings)
    requires Inv(s) && Enabled(s, e, st) && Actor(e).Some?
    ensures CreateOk(Step(s, e, st), Step(s, e, st).creates[Actor(e).value])
  {
    var c := Actor(e).value;
    if e.Scan? {
      ScanStaysOk(s, c, e.scan, e.picks, st);
    } else if e.Try? {
      TryStaysOk(s, c, st);
    } else {
      var s' := Step(s, e, st);
      PcStaysOk(s, e, st);
      StepKeepsFleet(s, e, st);
      CreateStaysOk(s.(tenants := s'.tenants), s', s'.creates[c]);
    }
  }

  /** The other steps of a create, against the hosts before the step. */
  lemma PcStaysOk(s: State, e: Event, st: Settings)
    requires Inv(s) && Enabled(s, e, st) && Actor(e).Some? && !e.Scan? && !e.Try?
    ensures CreateOk(s.(tenants := Step(s, e, st).tenants), Step(s, e, st).creates[Actor(e).value])
  {
    assert CreateOk(s, s.creates[Actor(e).value]);
  }

  lemma ScanStaysOk(s: State, c: nat, scan: seq<Host>, picks: seq<Host>, st: Settings)
    requires Inv(s) && Enabled(s, Scan(c, scan, picks), st)
    ensures var s' := Step(s, Scan(c, scan, picks), st); CreateOk(s', s'.creates[c])
  {
    var k := s.creates[c];
    assert CreateOk(s, k);
    if k.pin.None? {
      Capacity.PicksFitAndTailIsWorse(picks, scan, k.vcpu, k.mem, st.cfg, st.topK);
    }
  }

  lemma TryStaysOk(s: State, c: nat, st: Settings)
    requires Inv(s) && Enabled(s, Try(c), st)
    ensures var s' := Step(s, Try(c), st); CreateOk(s', s'.creates[c])
  {
    var k := s.creates[c];
    StepKeepsFleet(s, Try(c), st);
    assert CreateOk(s, k) && k.picks[k.tried] in k.picks;
  }

  /** The tenant rows a step writes name hosts of the fleet. */
  lemma StepKeepsTenantsOk(s: State, e: Event, st: Settings, t: nat)
    requires Inv(s) && Enabled(s, e, st) && t < |Step(s, e, st).tenants|
    ensures TenantOk(Step(s, e, st), Step(s, e, st).tenants[t])
  {
    StepKeepsHosts(s, e, st);
    TenantRowOk(s, e, st, t);
  }

  /** The same against the hosts before the step. */
  lemma TenantRowOk(s: State, e: Event, st: Settings, t: nat)
    requires Inv(s) && Enabled(s, e, st) && t < |Step(s, e, st).tenants|
    ensures TenantOk(s, Step(s, e, st).tenants[t])
  {
    assert t < |s.tenants| ==> TenantOk(s, s.tenants[t]);
    if e.Put? {
      assert CreateOk(s, s.creates[e.c]);
    }
  }

  lemma CreateStaysOk(s: State, s': State, k: Create)
    requires CreateOk(s, k) && SameFleet(s.hosts, s'.hosts) && |s.tenants| <= |s'.tenants|
    ensures CreateOk(s', k)
  {
  }

  lemma StepKeepsInv(s: State, e: Event, st: Settings)
    requires Inv(s) && Enabled(s, e, st)
    ensures Inv(Step(s, e, st))
  {
    var s' := Step(s, e, st);
    StepKeepsFleet(s, e, st);
    forall t | 0 <= t < |s'.tenants| ensures TenantOk(s', s'.tenants[t]) {
      StepKeepsTenantsOk(s, e, st, t);
    }
    ReservedStayOk(s, e, st);
    if Actor(e).Some? { ActorStaysOk(s, e, st); }
    forall c | 0 <= c < |s'.creates| ensures CreateOk(s', s'.creates[c]) {
      OtherCreates(s, e, st, c);
      if c < |s.creates| && Actor(e) != Some(c) {
        CreateStaysOk(s, s', s.creates[c]);
      }
    }
  }

  lemma OtherCreates(s: State, e: Event, st: Settings, c: nat)
    requires Inv(s) && Enabled(s, e, st) && c < |Step(s, e, st).creates|
    ensures var s' := Step(s, e, st);
            |s.tenants| <= |s'.tenants| && |s.creates| <= |s'.creates| &&
            (c < |s.creates| && Actor(e) != Some(c) ==> s'.creates[c] == s.creates[c]) &&
            (c >= |s.creates| ==> CreateOk(s', s'.creates[c]))
  {
  }

  lemma ReservedStayOk(s: State, e: Event, st: Settings)
    requires Inv(s) && Enabled(s, e, st)
    ensures forall p <- Step(s, e, st).reserved :: p.0 in Step(s, e, st).hosts
  {
    StepKeepsHosts(s, e, st);
    assert forall p <- Step(s, e, st).reserved :: p in s.reserved || p.0 in s.hosts;
  }

  lemma {:induction false} RunKeepsInv(states: seq<State>, events: seq<Event>, st: Settings, i: nat)
    requires Run(states, events, st) && i < |states|
    ensures Inv(states[i]) && states[i].hosts.Keys == states[0].hosts.Keys
  {
    if i > 0 {
      RunKeepsInv(states, events, st, i - 1);
      StepKeepsInv(states[i - 1], events[i - 1], st);
      StepKeepsFleet(states[i - 1], events[i - 1], st);
    }
  }

  /** A run goes on with any enabled step. */
  lemma AppendStep(states: seq<State>, events: seq<Event>, e: Event, s': State, st: Settings)
    requires Run(states, events, st) && Enabled(states[|events|], e, st) && s' == Step(states[|events|], e, st)
    ensures Run(states + [s'], events + [e], st)
  {
  }
}
