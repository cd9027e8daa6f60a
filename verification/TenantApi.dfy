/** The tenant handlers of the API as they run against the two tables.

    Each handler is written out call by call, and every write it makes is proved to be a step of the
    transition system of `Plane`, enabled where it happens (the writes of a delete, and those of the
    commit of a resize, being one step).  What `Ledger` and `Numbers` prove of every run therefore
    holds of these handlers, alone or interleaved. */
module TenantApi {
  import opened Tables
  import opened Plane
  import HostRows
  import Capacity

  // ---- Traces of the transition system ----

  ghost predicate Legal(s: State, events: seq<Event>, st: Settings)
    decreases |events|, 0
  {
    events == [] ||
    (Legal(s, events[..|events| - 1], st) &&
     Enabled(After(s, events[..|events| - 1], st), events[|events| - 1], st))
  }

  ghost function After(s: State, events: seq<Event>, st: Settings): State
    requires Legal(s, events, st)
    decreases |events|, 1
  {
    if events == [] then s
    else Step(After(s, events[..|events| - 1], st), events[|events| - 1], st)
  }

  /** A legal trace is a run, so the theorems about runs apply to it. */
  lemma {:induction false} TraceIsRun(s: State, events: seq<Event>, st: Settings) returns (states: seq<State>)
    requires Inv(s) && Legal(s, events, st)
    ensures Run(states, events, st) && states[0] == s && states[|events|] == After(s, events, st)
  {
    if events == [] {
      states := [s];
    } else {
      var prefix := events[..|events| - 1];
      LastStep(s, events, st);
      var before := TraceIsRun(s, prefix, st);
      AppendStep(before, prefix, events[|events| - 1], After(s, events, st), st);
      assert events == prefix + [events[|events| - 1]];
      states := before + [After(s, events, st)];
    }
  }

  lemma LastStep(s: State, events: seq<Event>, st: Settings)
    requires Legal(s, events, st) && events != []
    ensures var prefix, last := events[..|events| - 1], events[|events| - 1];
            Legal(s, prefix, st) && Enabled(After(s, prefix, st), last, st) &&
            After(s, events, st) == Step(After(s, prefix, st), last, st)
  {
  }

  lemma {:induction false} TraceKeepsInv(s: State, events: seq<Event>, st: Settings)
    requires Inv(s) && Legal(s, events, st)
    ensures Inv(After(s, events, st))
  {
    if events != [] {
      var n := |events| - 1;
      TraceKeepsInv(s, events[..n], st);
      StepKeepsInv(After(s, events[..n], st), events[n], st);
    }
  }

  lemma Extend(s: State, events: seq<Event>, e: Event, st: Settings)
    requires Legal(s, events, st) && Enabled(After(s, events, st), e, st)
    ensures Legal(s, events + [e], st) && After(s, events + [e], st) == Step(After(s, events, st), e, st)
  {
    assert (events + [e])[..|events|] == events;
  }

  /** The events can be taken one after the other. */
  ghost predicate AllEnabled(s: State, events: seq<Event>, st: Settings)
    decreases |events|
  {
    events == [] || (Enabled(s, events[0], st) && AllEnabled(Step(s, events[0], st), events[1..], st))
  }

  ghost function StepAll(s: State, events: seq<Event>, st: Settings): State
    requires AllEnabled(s, events, st)
    decreases |events|
  {
    if events == [] then s else StepAll(Step(s, events[0], st), events[1..], st)
  }

  /** A legal trace goes on with them. */
  lemma {:induction false} ExtendAll(s: State, xs: seq<Event>, ys: seq<Event>, st: Settings) returns (zs: seq<Event>)
    requires Legal(s, xs, st) && AllEnabled(After(s, xs, st), ys, st)
    ensures Legal(s, zs, st) && After(s, zs, st) == StepAll(After(s, xs, st), ys, st)
    decreases |ys|
  {
    if ys == [] {
      zs := xs;
    } else {
      Extend(s, xs, ys[0], st);
      zs := ExtendAll(s, xs + [ys[0]], ys[1..], st);
    }
  }

  /** A registered fleet and nothing else. */
  ghost predicate Fresh(s: State) {
    s.tenants == [] && s.creates == [] && s.reserved == {} &&
    forall id <- s.hosts :: s.hosts[id].id == id && Published(s.hosts[id])
  }

  /** `now` is where the events lead from `start`. */
  ghost predicate Traced(start: State, events: seq<Event>, now: State, st: Settings) {
    Fresh(start) && Legal(start, events, st) && After(start, events, st) == now
  }

  datatype Outcome =
    | Created(tenant: nat, host: HostId, vmNum: int)
    | Pended(tenant: nat)
    | RolledBackClone(tenant: nat)
    | Refused

  /** A complete row whose totals are those the create saw. */
  ghost predicate Known(hosts: map<HostId, Host>, cand: Host) {
    cand.id in hosts && Published(hosts[cand.id]) &&
    cand.totalVcpu == hosts[cand.id].totalVcpu && cand.totalMem == hosts[cand.id].totalMem
  }

  /** One conditional write: it went through with a number, or changed nothing. */
  ghost predicate SlotOutcome(before: map<HostId, Host>, after: map<HostId, Host>, cand: Host, vcpu: int, mem: int,
                              cfg: Config, vmNum: Option<int>) {
    match vmNum
    case None => after == before && cand.id in before &&
                 !HostRows.Reserve(before[cand.id], cand, vcpu, mem, cfg).Booked?
    case Some(n) => BookedOn(before, after, cand, vcpu, mem, cfg, n)
  }

  /** The create after the attempt. */
  function Tried(k: Create, host: HostId, vmNum: Option<int>): Create {
    match vmNum
    case None => k.(tried := k.tried + 1)
    case Some(n) => k.(pc := Holding(host, n), bookings := k.bookings + 1)
  }

  /** The create in progress, the last one, is about to try `cand`. */
  ghost predicate Tries(s: State, cand: Host, vcpu: int, mem: int, st: Settings) {
    s.creates != [] && Enabled(s, Try(|s.creates| - 1), st) &&
    var k := s.creates[|s.creates| - 1];
    k.picks[k.tried] == cand && k.vcpu == vcpu && k.mem == mem
  }

  /** The reservation of `cand` went through and changed its row only. */
  ghost predicate BookedOn(before: map<HostId, Host>, after: map<HostId, Host>, cand: Host, vcpu: int, mem: int,
                           cfg: Config, n: int) {
    cand.id in before && cand.id in after && after == before[cand.id := after[cand.id]] &&
    Published(before[cand.id]) &&
    cand.totalVcpu == before[cand.id].totalVcpu && cand.totalMem == before[cand.id].totalMem &&
    HostRows.Reserve(before[cand.id], cand, vcpu, mem, cfg) == HostRows.Booked(after[cand.id], n)
  }

  /** How a create may end, on both tables. */
  ghost predicate Ended(hosts: map<HostId, Host>, hosts': map<HostId, Host>, tenants: seq<Tenant>,
                        tenants': seq<Tenant>, vcpu: int, mem: int, pin: Option<HostId>, clone: bool, cloned: bool,
                        out: Outcome, cfg: Config) {
    match out
    case Refused => pin.Some? && hosts' == hosts && tenants' == tenants
    case Pended(t) =>
      t == |tenants| && hosts' == hosts && tenants' == tenants + [Tenant(Pending, None, 0, vcpu, mem, None)]
    case Created(t, h, n) =>
      t == |tenants| && (pin.Some? ==> pin == Some(h)) && (clone ==> cloned) &&
      tenants' == tenants + [Tenant(Creating, Some(h), n, vcpu, mem, None)] &&
      h in hosts && h in hosts' && hosts' == hosts[h := hosts'[h]] && Within(hosts'[h], cfg) &&
      n == hosts[h].nextVmNum.GetOr(1) && hosts'[h].nextVmNum == Some(n + 1)
    case RolledBackClone(t) =>
      t == |tenants| && clone && !cloned && |tenants'| == t + 1 && tenants'[..t] == tenants &&
      tenants'[t].status == TenantStatus.Deleted &&
      exists h :: h in hosts && (pin.Some? ==> pin == Some(h)) && hosts' == hosts[h := HostRows.GivenBack(hosts[h])]
  }

  /** What a create does after its booking: the tenant row, or the undone clone. */
  ghost predicate Written(hosts: map<HostId, Host>, hosts': map<HostId, Host>, tenants: seq<Tenant>,
                          tenants': seq<Tenant>, host: HostId, n: int, vcpu: int, mem: int, clone: bool,
                          cloned: bool, out: Outcome) {
    if clone && !cloned then
      out == RolledBackClone(|tenants|) && hosts' == Charge(hosts, host, -vcpu, -mem, -1) &&
      tenants' == tenants + [Tenant(TenantStatus.Deleted, Some(host), n, vcpu, mem, None)]
    else
      out == Created(|tenants|, host, n) && hosts' == hosts &&
      tenants' == tenants + [Tenant(Creating, Some(host), n, vcpu, mem, None)]
  }

  lemma BookedCreateEnds(hosts: map<HostId, Host>, booked: map<HostId, Host>, hosts': map<HostId, Host>,
                         tenants: seq<Tenant>, tenants': seq<Tenant>, cand: Host, n: int, vcpu: int, mem: int,
                         pin: Option<HostId>, clone: bool, cloned: bool, out: Outcome, cfg: Config)
    requires BookedOn(hosts, booked, cand, vcpu, mem, cfg, n) && (pin.Some? ==> pin == Some(cand.id))
    requires Written(booked, hosts', tenants, tenants', cand.id, n, vcpu, mem, clone, cloned, out)
    ensures Ended(hosts, hosts', tenants, tenants', vcpu, mem, pin, clone, cloned, out, cfg)
  {
    BookingMeans(hosts, booked, cand, vcpu, mem, cfg, n);
  }

  /** `tenant_resize` lets the request through. */
  predicate Resizable(s: State, t: nat, newVcpu: int, cfg: Config) {
    t < |s.tenants| && s.tenants[t].status == Running && newVcpu > s.tenants[t].vcpu &&
    s.tenants[t].host.Some? && s.tenants[t].host.value in s.hosts &&
    newVcpu - s.tenants[t].vcpu <= Capacity.FreeVcpu(s.hosts[s.tenants[t].host.value], cfg)
  }

  /** A running tenant asks for more vCPU, on a host within its capacity. */
  ghost predicate AsksToGrow(s: State, t: nat, newVcpu: int, cfg: Config) {
    t < |s.tenants| && s.tenants[t].status == Running && newVcpu > s.tenants[t].vcpu &&
    s.tenants[t].host.Some? && s.tenants[t].host.value in s.hosts && Within(s.hosts[s.tenants[t].host.value], cfg)
  }

  /** The answer to such a request, and what an undisturbed commit then makes of the host. */
  lemma GrowthIsChecked(s: State, t: nat, newVcpu: int, st: Settings)
    requires Inv(s) && AsksToGrow(s, t, newVcpu, st.cfg)
    ensures var h := s.tenants[t].host.value;
            var used := s.hosts[h].usedVcpu.value + newVcpu - s.tenants[t].vcpu;
            var most := Allocatable(s.hosts[h].totalVcpu.value, st.cfg.cpuRatio);
            (Resizable(s, t, newVcpu, st.cfg) <==> used <= most) &&
            Enabled(s, ResizeOf(s, t, newVcpu), st) &&
            var s' := Step(s, ResizeOf(s, t, newVcpu), st);
            h in s'.hosts && s'.hosts[h].usedVcpu == Some(used) && s'.tenants[t].vcpu == newVcpu &&
            (used <= most ==> Within(s'.hosts[h], st.cfg))
  {
    var h := s.tenants[t].host.value;
    StepRow(s, ResizeOf(s, t, newVcpu), st, h);
  }

  lemma TracedGrowth(start: State, events: seq<Event>, s: State, t: nat, newVcpu: int, st: Settings)
    requires Traced(start, events, s, st)
    ensures AsksToGrow(s, t, newVcpu, st.cfg) ==>
              var h := s.tenants[t].host.value;
              var used := s.hosts[h].usedVcpu.value + newVcpu - s.tenants[t].vcpu;
              var most := Allocatable(s.hosts[h].totalVcpu.value, st.cfg.cpuRatio);
              (Resizable(s, t, newVcpu, st.cfg) <==> used <= most) &&
              Enabled(s, ResizeOf(s, t, newVcpu), st) &&
              var s' := Step(s, ResizeOf(s, t, newVcpu), st);
              h in s'.hosts && s'.hosts[h].usedVcpu == Some(used) && s'.tenants[t].vcpu == newVcpu &&
              (used <= most ==> Within(s'.hosts[h], st.cfg))
  {
    TraceKeepsInv(start, events, st);
    if AsksToGrow(s, t, newVcpu, st.cfg) { GrowthIsChecked(s, t, newVcpu, st); }
  }

  /** The commit that follows from what the request read. */
  function ResizeOf(s: State, t: nat, newVcpu: int): Event
    requires t < |s.tenants|
  {
    Resize(t, newVcpu, s.tenants[t].host.GetOr(""), newVcpu - s.tenants[t].vcpu)
  }

  class Api {
    const st: Settings
    const table: HostRows.HostsTable
    var tenants: seq<Tenant>
    ghost var creates: seq<Create>
    ghost var issued: seq<(HostId, int)>
    ghost var reserved: set<(HostId, int)>
    ghost const start: State
    ghost var trace: seq<Event>

    ghost function Now(): State
      reads this, table
    {
      State(table.rows, tenants, creates, issued, reserved)
    }

    /** Everything done so far is a run of the transition system. */
    ghost predicate Valid()
      reads this, table
    {
      Traced(start, trace, Now(), st)
    }

    constructor (st: Settings, hosts: map<HostId, Host>)
      requires forall id <- hosts :: hosts[id].id == id && Published(hosts[id])
      ensures Valid() && this.st == st && fresh(table) && table.rows == hosts && tenants == []
    {
      this.st, tenants := st, [];
      table := new HostRows.HostsTable();
      creates, issued, reserved := [], [], {};
      start, trace := State(hosts, [], [], [], {}), [];
      new;
      table.rows := hosts;
    }

    /** Enters a finished step in the trace: the tables already hold its result. */
    ghost method Record(before: State, e: Event)
      requires Traced(start, trace, before, st)
      requires Enabled(before, e, st) && Step(before, e, st).hosts == table.rows && Step(before, e, st).tenants == tenants
      modifies this`creates, this`issued, this`reserved, this`trace
      ensures Valid() && Now() == Step(before, e, st) && trace == old(trace) + [e]
    {
      Extend(start, trace, e, st);
      var s := Step(before, e, st);
      creates, issued, reserved, trace := s.creates, s.issued, s.reserved, trace + [e];
    }

    /** `delete_tenant` */
    method DeleteTenant(t: nat) returns (code: int)
      requires Valid()
      modifies this, table
      ensures Valid()
      ensures code == if t < old(|tenants|) then 200 else 404
      ensures if t < old(|tenants|) && old(tenants)[t].status != TenantStatus.Deleted
              then trace == old(trace) + [Delete(t)] && Now() == Step(old(Now()), Delete(t), st)
              else Now() == old(Now()) && trace == old(trace)
    {
      if t >= |tenants| {
        return 404;
      }
      if tenants[t].status == TenantStatus.Deleted {
        return 200;
      }
      EraseTenant(t);
      code := 200;
    }

    /** The two table writes of a delete. */
    method EraseTenant(t: nat)
      requires Valid() && t < |tenants| && tenants[t].status != TenantStatus.Deleted
      modifies table, this`tenants, this`creates, this`issued, this`reserved, this`trace
      ensures Valid() && trace == old(trace) + [Delete(t)] && Now() == Step(old(Now()), Delete(t), st)
    {
      ghost var before := Now();
      DeleteWrites(start, trace, before, t, st);
      var item := tenants[t];
      if item.host.Some? {
        Release(item.host.value, item.vcpu, item.mem);
      }
      tenants := tenants[t := item.(status := TenantStatus.Deleted)];
      Record(before, Delete(t));
    }

    /** Gives a slot back on a complete row. */
    method Release(id: HostId, vcpu: int, mem: int)
      requires id in table.rows && Published(table.rows[id])
      modifies table
      ensures table.rows == Charge(old(table.rows), id, -vcpu, -mem, -1)
    {
      var ok := table.ReleaseHostSlot(id, vcpu, mem);
    }

    /** `tenant_resize` with nothing in between; `patched` is the answer of Firecracker. */
    method TenantResize(t: nat, newVcpu: int, patched: bool) returns (code: int)
      requires Valid()
      modifies this, table
      ensures Valid()
      ensures code == if t >= old(|tenants|) then 404
                      else if !Resizable(old(Now()), t, newVcpu, st.cfg) then 400
                      else if patched then 200 else 502
      ensures if code == 200
              then trace == old(trace) + [ResizeOf(old(Now()), t, newVcpu)] &&
                   Now() == Step(old(Now()), ResizeOf(old(Now()), t, newVcpu), st)
              else Now() == old(Now()) && trace == old(trace)
      ensures AsksToGrow(old(Now()), t, newVcpu, st.cfg) ==>
                var h := old(tenants)[t].host.value;
                var used := old(table.rows)[h].usedVcpu.value + newVcpu - old(tenants)[t].vcpu;
                var most := Allocatable(old(table.rows)[h].totalVcpu.value, st.cfg.cpuRatio);
                (code == 400 <==> used > most) && h in table.rows && Within(table.rows[h], st.cfg) &&
                (code == 200 ==> table.rows[h].usedVcpu == Some(used) && tenants[t].vcpu == newVcpu)
      ensures t < old(|tenants|) && old(tenants)[t].status != Running ==> code == 400
      ensures t < old(|tenants|) && newVcpu <= old(tenants)[t].vcpu ==> code == 400
      ensures t < old(|tenants|) && old(tenants)[t].host.GetOr("") !in old(table.rows) ==> code == 400
    {
      TracedGrowth(start, trace, Now(), t, newVcpu, st);
      var id, delta;
      code, id, delta := CheckResize(t, newVcpu);
      if code != 200 {
        return;
      }
      if !patched {
        return 502;
      }
      CommitResize(t, newVcpu, id, delta);
    }

    /** The checks of `tenant_resize`, and what it remembers while it waits for the VM. */
    method CheckResize(t: nat, newVcpu: int) returns (code: int, id: HostId, delta: int)
      requires Valid()
      ensures code == if t >= |tenants| then 404 else if Resizable(Now(), t, newVcpu, st.cfg) then 200 else 400
      ensures code == 200 ==> Resize(t, newVcpu, id, delta) == ResizeOf(Now(), t, newVcpu) &&
                              Enabled(Now(), Resize(t, newVcpu, id, delta), st)
    {
      id, delta := "", 0;
      if t >= |tenants| {
        return 404, id, delta;
      }
      var item := tenants[t];
      if item.status != Running || newVcpu <= item.vcpu {
        return 400, id, delta;
      }
      if item.host.None? || item.host.value !in table.rows {
        return 400, id, delta;
      }
      var h := table.rows[item.host.value];
      TracedRows(start, trace, Now(), st);
      if newVcpu - item.vcpu > Allocatable(h.totalVcpu.value, st.cfg.cpuRatio) - h.usedVcpu.value {
        return 400, id, delta;
      }
      return 200, item.host.value, newVcpu - item.vcpu;
    }

    /** Its two writes, whatever happened since the checks: neither has a condition. */
    method CommitResize(t: nat, newVcpu: int, id: HostId, delta: int)
      requires Valid() && Enabled(Now(), Resize(t, newVcpu, id, delta), st)
      modifies table, this`tenants, this`creates, this`issued, this`reserved, this`trace
      ensures Valid() && trace == old(trace) + [Resize(t, newVcpu, id, delta)]
      ensures Now() == Step(old(Now()), Resize(t, newVcpu, id, delta), st)
    {
      ghost var before := Now();
      ResizeWrites(start, trace, before, t, newVcpu, id, delta, st);
      tenants := tenants[t := tenants[t].(vcpu := newVcpu)];
      table.AddVcpu(id, delta);
      Record(before, Resize(t, newVcpu, id, delta));
    }

    /** The create in progress: its own entry is the last one. */
    ghost predicate Trying(vcpu: int, mem: int, pin: Option<HostId>, clone: bool, picks: seq<Host>, tried: nat)
      reads this
    {
      creates != [] &&
      var k := creates[|creates| - 1];
      k.pc.Trying? && k.vcpu == vcpu && k.mem == mem && k.pin == pin && k.clone == clone && k.picks == picks &&
      k.tried == tried
    }

    /** It has reserved a slot. */
    ghost predicate Holds(vcpu: int, mem: int, clone: bool, host: HostId, vmNum: int)
      reads this
    {
      creates != [] &&
      var k := creates[|creates| - 1];
      k.pc == Holding(host, vmNum) && k.vcpu == vcpu && k.mem == mem && k.clone == clone
    }

    /** The hosts a create may go to: the pinned one if it has room, else the ranked candidates. */
    method Candidates(vcpu: int, mem: int, pin: Option<HostId>, clone: bool, scan: seq<Host>,
                      shuffle: seq<Host> -> seq<Host>) returns (picks: seq<Host>)
      requires Valid() && (clone ==> pin.Some?) && ScanOf(table.rows, scan) && Capacity.Shuffles(shuffle)
      modifies this`creates, this`issued, this`reserved, this`trace
      ensures Valid() && Trying(vcpu, mem, pin, clone, picks, 0) && old(trace) <= trace
      ensures pin.None? ==> Capacity.IsPick(picks, scan, vcpu, mem, st.cfg, st.topK)
      ensures pin.Some? ==> |picks| <= 1 && forall p <- picks :: p.id == pin.value
    {
      Record(Now(), Arrive(vcpu, mem, pin, clone));
      match pin {
        case None =>
          picks := Capacity.PickHostsForCreate(scan, vcpu, mem, st.cfg, st.topK, shuffle);
          RecordRanked(vcpu, mem, clone, scan, picks);
        case Some(h) => picks := PinnedCandidate(vcpu, mem, h, clone);
      }
    }

    /** The create has arrived and not read the hosts yet. */
    ghost predicate Arrived(vcpu: int, mem: int, pin: Option<HostId>, clone: bool)
      reads this
    {
      creates != [] && creates[|creates| - 1] == Create(vcpu, mem, pin, clone, [], 0, Scanning, 0, 0)
    }

    ghost method RecordRanked(vcpu: int, mem: int, clone: bool, scan: seq<Host>, picks: seq<Host>)
      requires Valid() && Arrived(vcpu, mem, None, clone) && ScanOf(table.rows, scan)
      requires Capacity.IsPick(picks, scan, vcpu, mem, st.cfg, st.topK)
      modifies this`creates, this`issued, this`reserved, this`trace
      ensures Valid() && Trying(vcpu, mem, None, clone, picks, 0) && old(trace) <= trace
    {
      RankedScanEnabled(Now(), |creates| - 1, scan, picks, vcpu, mem, st);
      RecordScan(vcpu, mem, None, clone, scan, picks);
    }

    ghost method RecordScan(vcpu: int, mem: int, pin: Option<HostId>, clone: bool, scan: seq<Host>, picks: seq<Host>)
      requires Valid() && Arrived(vcpu, mem, pin, clone) && Enabled(Now(), Scan(|creates| - 1, scan, picks), st)
      modifies this`creates, this`issued, this`reserved, this`trace
      ensures Valid() && Trying(vcpu, mem, pin, clone, picks, 0) && old(trace) <= trace
    {
      Record(Now(), Scan(|creates| - 1, scan, picks));
    }

    /** `_get_specific_host_with_capacity` */
    method PinnedCandidate(vcpu: int, mem: int, h: HostId, clone: bool) returns (picks: seq<Host>)
      requires Valid() && Arrived(vcpu, mem, Some(h), clone)
      modifies this`creates, this`issued, this`reserved, this`trace
      ensures Valid() && Trying(vcpu, mem, Some(h), clone, picks, 0) && old(trace) <= trace
      ensures |picks| <= 1 && forall p <- picks :: p.id == h
    {
      TracedRows(start, trace, Now(), st);
      var read := if h in table.rows then [table.rows[h]] else [];
      picks := if read != [] && Capacity.Schedulable(read[0]) && Capacity.HostFits(read[0], vcpu, mem, st.cfg)
               then read else [];
      RecordScan(vcpu, mem, Some(h), clone, read, picks);
    }

    /** One reservation attempt. */
    method Attempt(cand: Host, vcpu: int, mem: int, pin: Option<HostId>, clone: bool, picks: seq<Host>, tried: nat)
      returns (vmNum: Option<int>)
      requires Valid() && Trying(vcpu, mem, pin, clone, picks, tried) && tried < |picks| && cand == picks[tried]
      requires tried < Limit(pin, picks, st.attempts)
      modifies table, this`creates, this`issued, this`reserved, this`trace
      ensures Valid() && old(trace) <= trace && creates != []
      ensures vmNum.None? ==> table.rows == old(table.rows)
      ensures vmNum.Some? ==> BookedOn(old(table.rows), table.rows, cand, vcpu, mem, st.cfg, vmNum.value)
      ensures vmNum.None? ==> Trying(vcpu, mem, pin, clone, picks, tried + 1)
      ensures vmNum.Some? ==> Holds(vcpu, mem, clone, cand.id, vmNum.value)
    {
      ghost var before := Now();
      ghost var k := creates[|creates| - 1];
      CandidateIsKnown(start, trace, before, k, cand, vcpu, mem, st);
      vmNum := TrySlot(cand, vcpu, mem);
      RecordTry(before, k, cand, vcpu, mem, vmNum);
    }

    ghost method RecordTry(before: State, k: Create, cand: Host, vcpu: int, mem: int, vmNum: Option<int>)
      requires Traced(start, trace, before, st) && before.tenants == tenants && Tries(before, cand, vcpu, mem, st)
      requires before.creates[|before.creates| - 1] == k && Known(before.hosts, cand)
      requires SlotOutcome(before.hosts, table.rows, cand, vcpu, mem, st.cfg, vmNum)
      modifies this`creates, this`issued, this`reserved, this`trace
      ensures Valid() && old(trace) <= trace && creates != []
      ensures creates[|creates| - 1] == Tried(k, cand.id, vmNum)
    {
      if vmNum.Some? {
        RecordBooked(before, k, cand, vcpu, mem, vmNum.value);
      } else {
        RecordRefused(before, k, cand, vcpu, mem);
      }
    }

    ghost method RecordBooked(before: State, k: Create, cand: Host, vcpu: int, mem: int, n: int)
      requires Traced(start, trace, before, st) && before.tenants == tenants && Tries(before, cand, vcpu, mem, st)
      requires before.creates[|before.creates| - 1] == k
      requires BookedOn(before.hosts, table.rows, cand, vcpu, mem, st.cfg, n)
      modifies this`creates, this`issued, this`reserved, this`trace
      ensures Valid() && old(trace) <= trace && creates != []
      ensures creates[|creates| - 1] == k.(pc := Holding(cand.id, n), bookings := k.bookings + 1)
    {
      BookedTry(before, |before.creates| - 1, cand, vcpu, mem, table.rows, n, st);
      Record(before, Try(|before.creates| - 1));
    }

    ghost method RecordRefused(before: State, k: Create, cand: Host, vcpu: int, mem: int)
      requires Traced(start, trace, before, st) && before.tenants == tenants && before.hosts == table.rows
      requires Tries(before, cand, vcpu, mem, st) && before.creates[|before.creates| - 1] == k
      requires cand.id in before.hosts && !HostRows.Reserve(before.hosts[cand.id], cand, vcpu, mem, st.cfg).Booked?
      modifies this`creates, this`issued, this`reserved, this`trace
      ensures Valid() && old(trace) <= trace && creates != []
      ensures creates[|creates| - 1] == k.(tried := k.tried + 1)
    {
      RefusedTry(before, |before.creates| - 1, cand, vcpu, mem, st);
      Record(before, Try(|before.creates| - 1));
    }

    method TrySlot(cand: Host, vcpu: int, mem: int) returns (vmNum: Option<int>)
      requires Known(table.rows, cand)
      modifies table
      ensures SlotOutcome(old(table.rows), table.rows, cand, vcpu, mem, st.cfg, vmNum)
    {
      var slot := table.ReserveHostSlot(cand, vcpu, mem, st.cfg);
      vmNum := if slot.Got? then Some(slot.vmNum) else None;
    }

    /** `create_tenant`, placement part: at most `attempts` candidates in order, a pinned host or
        none.  Exactly one host is booked and names the tenant, or no table row other than the
        tenant's changes; a failed clone gives back what it took except the number. */
    method CreateTenant(vcpu: int, mem: int, pin: Option<HostId>, clone: bool, scan: seq<Host>,
                        shuffle: seq<Host> -> seq<Host>, cloned: bool) returns (out: Outcome)
      requires Valid() && (clone ==> pin.Some?) && ScanOf(table.rows, scan) && Capacity.Shuffles(shuffle)
      modifies this, table
      ensures Valid() && old(trace) <= trace
      ensures Ended(old(table.rows), table.rows, old(tenants), tenants, vcpu, mem, pin, clone, cloned, out, st.cfg)
    {
      var picks := Candidates(vcpu, mem, pin, clone, scan, shuffle);
      if pin.Some? && picks == [] {
        RefuseCreate(vcpu, mem, pin, clone, picks);
        return Refused;
      }
      out := PlaceTenant(vcpu, mem, pin, clone, picks, cloned);
    }

    /** Reservation, and what follows from its outcome. */
    method PlaceTenant(vcpu: int, mem: int, pin: Option<HostId>, clone: bool, picks: seq<Host>, cloned: bool)
      returns (out: Outcome)
      requires Valid() && Trying(vcpu, mem, pin, clone, picks, 0)
      requires pin.Some? ==> picks != [] && forall p <- picks :: p.id == pin.value
      modifies table, this`tenants, this`creates, this`issued, this`reserved, this`trace
      ensures Valid() && old(trace) <= trace && !out.Refused?
      ensures Ended(old(table.rows), table.rows, old(tenants), tenants, vcpu, mem, pin, clone, cloned, out, st.cfg)
    {
      var where, vmNum := ReserveSomewhere(vcpu, mem, pin, clone, picks);
      if vmNum.None? {
        Queue(vcpu, mem, pin, clone, picks, where);
        return Pended(|tenants| - 1);
      }
      out := FinishCreate(old(table.rows), picks[where], vmNum.value, vcpu, mem, pin, clone, cloned);
    }

    /** What follows a booking. */
    method FinishCreate(ghost before: map<HostId, Host>, cand: Host, n: int, vcpu: int, mem: int, pin: Option<HostId>,
                        clone: bool, cloned: bool) returns (out: Outcome)
      requires Valid() && BookedOn(before, table.rows, cand, vcpu, mem, st.cfg, n) && (pin.Some? ==> pin == Some(cand.id))
      requires Holds(vcpu, mem, clone, cand.id, n)
      modifies table, this`tenants, this`creates, this`issued, this`reserved, this`trace
      ensures Valid() && old(trace) <= trace && !out.Refused?
      ensures Ended(before, table.rows, old(tenants), tenants, vcpu, mem, pin, clone, cloned, out, st.cfg)
    {
      BookingMeans(before, table.rows, cand, vcpu, mem, st.cfg, n);
      out := WriteTenant(cand.id, n, vcpu, mem, clone, cloned);
      BookedCreateEnds(before, old(table.rows), table.rows, old(tenants), tenants, cand, n, vcpu, mem, pin, clone,
                       cloned, out, st.cfg);
    }

    method RefuseCreate(vcpu: int, mem: int, pin: Option<HostId>, clone: bool, picks: seq<Host>)
      requires Valid() && Trying(vcpu, mem, pin, clone, picks, 0) && pin.Some? && picks == []
      modifies this`creates, this`issued, this`reserved, this`trace
      ensures Valid() && old(trace) <= trace
    {
      RefuseWrites(Now(), |creates| - 1, st);
      Record(Now(), GiveUp(|creates| - 1));
    }

    /** The reservation loop.  Each refused attempt is a `Try` of the trace that books nothing. */
    method ReserveSomewhere(vcpu: int, mem: int, pin: Option<HostId>, clone: bool, picks: seq<Host>)
      returns (where: nat, vmNum: Option<int>)
      requires Valid() && Trying(vcpu, mem, pin, clone, picks, 0)
      modifies table, this`creates, this`issued, this`reserved, this`trace
      ensures Valid() && old(trace) <= trace && creates != []
      ensures vmNum.None? ==> table.rows == old(table.rows) && Trying(vcpu, mem, pin, clone, picks, where) &&
                              where >= Limit(pin, picks, st.attempts)
      ensures vmNum.Some? ==>
                where < |picks| &&
                BookedOn(old(table.rows), table.rows, picks[where], vcpu, mem, st.cfg, vmNum.value) &&
                Holds(vcpu, mem, clone, picks[where].id, vmNum.value)
    {
      var limit := if st.attempts < 1 then 1 else st.attempts;
      if pin.Some? || |picks| < limit {
        limit := |picks|;
      }
      where := 0;
      vmNum := None;
      while where < limit
        invariant 0 <= where <= limit <= |picks| && Valid()
        invariant Trying(vcpu, mem, pin, clone, picks, where)
        invariant table.rows == old(table.rows) && old(trace) <= trace && vmNum.None?
      {
        vmNum := Attempt(picks[where], vcpu, mem, pin, clone, picks, where);
        if vmNum.Some? {
          return;
        }
        where := where + 1;
      }
    }

    /** No host took the tenant: it waits as `pending`. */
    method Queue(vcpu: int, mem: int, pin: Option<HostId>, clone: bool, picks: seq<Host>, tried: nat)
      requires Valid() && Trying(vcpu, mem, pin, clone, picks, tried) && tried >= Limit(pin, picks, st.attempts)
      requires pin.None? || picks != []
      modifies this`tenants, this`creates, this`issued, this`reserved, this`trace
      ensures Valid() && old(trace) <= trace
      ensures tenants == old(tenants) + [Tenant(Pending, None, 0, vcpu, mem, None)]
    {
      ghost var before := Now();
      QueueWrites(before, |creates| - 1, st);
      tenants := tenants + [Tenant(Pending, None, 0, vcpu, mem, None)];
      Record(before, GiveUp(|creates| - 1));
    }

    /** Writes the tenant row of a create that holds a slot. */
    method PutTenant(host: HostId, vmNum: int, vcpu: int, mem: int, clone: bool)
      requires Valid() && Holds(vcpu, mem, clone, host, vmNum)
      modifies this`tenants, this`creates, this`issued, this`reserved, this`trace
      ensures Valid() && old(trace) <= trace && |creates| == |old(creates)|
      ensures tenants == old(tenants) + [Tenant(Creating, Some(host), vmNum, vcpu, mem, None)]
      ensures clone ==> creates[|creates| - 1] == old(creates)[|creates| - 1].(pc := Cloning(host, |old(tenants)|))
    {
      ghost var before := Now();
      PutWrites(before, |creates| - 1, st);
      tenants := tenants + [Tenant(Creating, Some(host), vmNum, vcpu, mem, None)];
      Record(before, Put(|creates| - 1));
    }

    /** The rollback of a clone whose disks could not be copied: first the slot, then the row. */
    method RollBackClone(host: HostId, t: nat, vcpu: int, mem: int)
      requires Valid() && creates != [] && creates[|creates| - 1].pc == Cloning(host, t) && t < |tenants|
      requires var k := creates[|creates| - 1]; k.vcpu == vcpu && k.mem == mem
      requires host in table.rows && Published(table.rows[host])
      modifies table, this`tenants, this`creates, this`issued, this`reserved, this`trace
      ensures Valid() && old(trace) <= trace
      ensures table.rows == Charge(old(table.rows), host, -vcpu, -mem, -1)
      ensures tenants == old(tenants)[t := old(tenants)[t].(status := TenantStatus.Deleted)]
    {
      ReleaseSlot(host, t, vcpu, mem);
      MarkDeleted(host, t);
    }

    method ReleaseSlot(host: HostId, t: nat, vcpu: int, mem: int)
      requires Valid() && creates != [] && creates[|creates| - 1].pc == Cloning(host, t)
      requires var k := creates[|creates| - 1]; k.vcpu == vcpu && k.mem == mem
      requires host in table.rows && Published(table.rows[host])
      modifies table, this`creates, this`issued, this`reserved, this`trace
      ensures Valid() && old(trace) <= trace && |creates| == |old(creates)|
      ensures creates[|creates| - 1].pc == Releasing(host, t)
      ensures table.rows == Charge(old(table.rows), host, -vcpu, -mem, -1)
    {
      ghost var before := Now();
      Release(host, vcpu, mem);
      CloneReleaseWrites(before, |creates| - 1, host, t, vcpu, mem, st);
      Record(before, CloneRelease(|creates| - 1));
    }

    method MarkDeleted(host: HostId, t: nat)
      requires Valid() && creates != [] && creates[|creates| - 1].pc == Releasing(host, t) && t < |tenants|
      modifies this`tenants, this`creates, this`issued, this`reserved, this`trace
      ensures Valid() && old(trace) <= trace
      ensures tenants == old(tenants)[t := old(tenants)[t].(status := TenantStatus.Deleted)]
    {
      ghost var before := Now();
      CloneMarkWrites(before, |creates| - 1, st);
      tenants := tenants[t := tenants[t].(status := TenantStatus.Deleted)];
      Record(before, CloneMark(|creates| - 1));
    }

    /** The rest of `create_tenant` once the slot is held: the tenant row and, for a clone, the copy
        of the source's disks, undone on both tables when the copy fails. */
    method WriteTenant(host: HostId, vmNum: int, vcpu: int, mem: int, clone: bool, cloned: bool) returns (out: Outcome)
      requires Valid() && Holds(vcpu, mem, clone, host, vmNum)
      requires host in table.rows && Published(table.rows[host])
      modifies table, this`tenants, this`creates, this`issued, this`reserved, this`trace
      ensures Valid() && old(trace) <= trace
      ensures Written(old(table.rows), table.rows, old(tenants), tenants, host, vmNum, vcpu, mem, clone, cloned, out)
    {
      var t := |tenants|;
      PutTenant(host, vmNum, vcpu, mem, clone);
      if !clone {
        return Created(t, host, vmNum);
      }
      if cloned {
        CloneDoneWrites(Now(), |creates| - 1, st);
        Record(Now(), CloneDone(|creates| - 1));
        return Created(t, host, vmNum);
      }
      RollBackClone(host, t, vcpu, mem);
      out := RolledBackClone(t);
    }
  }

  // ---- What the steps write ----

  lemma TracedRows(start: State, events: seq<Event>, s: State, st: Settings)
    requires Traced(start, events, s, st)
    ensures forall id <- s.hosts :: s.hosts[id].id == id && Published(s.hosts[id])
  {
    TraceKeepsInv(start, events, st);
  }

  lemma DeleteWrites(start: State, events: seq<Event>, s: State, t: nat, st: Settings)
    requires Traced(start, events, s, st) && t < |s.tenants| && s.tenants[t].status != TenantStatus.Deleted
    ensures var x := s.tenants[t];
            Enabled(s, Delete(t), st) &&
            (x.host.Some? ==> x.host.value in s.hosts && Published(s.hosts[x.host.value])) &&
            var s' := Step(s, Delete(t), st);
            s'.tenants == s.tenants[t := x.(status := TenantStatus.Deleted)] &&
            s'.hosts == if x.host.Some? then Charge(s.hosts, x.host.value, -x.vcpu, -x.mem, -1) else s.hosts
  {
    if s.tenants[t].host.Some? { TracedOwner(start, events, s, t, st); }
  }

  lemma TracedOwner(start: State, events: seq<Event>, s: State, t: nat, st: Settings)
    requires Traced(start, events, s, st) && t < |s.tenants| && s.tenants[t].host.Some?
    ensures s.tenants[t].host.value in s.hosts && Published(s.hosts[s.tenants[t].host.value])
  {
    TraceKeepsInv(start, events, st);
    assert TenantOk(s, s.tenants[t]);
  }

  lemma RankedScanEnabled(s: State, c: nat, scan: seq<Host>, picks: seq<Host>, vcpu: int, mem: int, st: Settings)
    requires c < |s.creates| && s.creates[c].pc.Scanning? && s.creates[c].pin.None? && ScanOf(s.hosts, scan)
    requires s.creates[c].vcpu == vcpu && s.creates[c].mem == mem
    requires Capacity.IsPick(picks, scan, vcpu, mem, st.cfg, st.topK)
    ensures Enabled(s, Scan(c, scan, picks), st)
  {
  }

  lemma CandidateIsKnown(start: State, events: seq<Event>, s: State, k: Create, cand: Host, vcpu: int, mem: int,
                         st: Settings)
    requires Traced(start, events, s, st) && s.creates != [] && s.creates[|s.creates| - 1] == k
    requires k.pc.Trying? && k.tried < Limit(k.pin, k.picks, st.attempts)
    requires k.picks[k.tried] == cand && k.vcpu == vcpu && k.mem == mem
    ensures Tries(s, cand, vcpu, mem, st) && Known(s.hosts, cand)
  {
    TraceKeepsInv(start, events, st);
    assert CreateOk(s, k) && k.picks[k.tried] in k.picks;
  }

  lemma BookedTry(s: State, c: nat, cand: Host, vcpu: int, mem: int, rows: map<HostId, Host>, n: int, st: Settings)
    requires Enabled(s, Try(c), st)
    requires var k := s.creates[c]; k.picks[k.tried] == cand && k.vcpu == vcpu && k.mem == mem
    requires BookedOn(s.hosts, rows, cand, vcpu, mem, st.cfg, n)
    ensures var k, s' := s.creates[c], Step(s, Try(c), st);
            s'.hosts == rows && s'.tenants == s.tenants &&
            s'.creates == s.creates[c := k.(pc := Holding(cand.id, n), bookings := k.bookings + 1)]
  {
  }

  lemma RefusedTry(s: State, c: nat, cand: Host, vcpu: int, mem: int, st: Settings)
    requires Enabled(s, Try(c), st)
    requires var k := s.creates[c]; k.picks[k.tried] == cand && k.vcpu == vcpu && k.mem == mem
    requires cand.id in s.hosts && !HostRows.Reserve(s.hosts[cand.id], cand, vcpu, mem, st.cfg).Booked?
    ensures var k, s' := s.creates[c], Step(s, Try(c), st);
            s'.hosts == s.hosts && s'.tenants == s.tenants &&
            s'.creates == s.creates[c := k.(tried := k.tried + 1)]
  {
  }

  lemma RefuseWrites(s: State, c: nat, st: Settings)
    requires c < |s.creates| && s.creates[c].pc.Trying? && s.creates[c].pin.Some? && s.creates[c].picks == []
    ensures Enabled(s, GiveUp(c), st) && Step(s, GiveUp(c), st).hosts == s.hosts &&
            Step(s, GiveUp(c), st).tenants == s.tenants
  {
  }

  /** A booked host is within its capacity and gives the number its counter stood at; releasing the
      slot restores its load, and the number stays used up. */
  lemma BookingMeans(before: map<HostId, Host>, after: map<HostId, Host>, cand: Host, vcpu: int, mem: int,
                     cfg: Config, n: int)
    requires BookedOn(before, after, cand, vcpu, mem, cfg, n)
    ensures var h := before[cand.id];
            Published(after[cand.id]) && Within(after[cand.id], cfg) && n == h.nextVmNum.GetOr(1) &&
            Charge(after, cand.id, -vcpu, -mem, -1) == before[cand.id := HostRows.GivenBack(h)]
  {
    HostRows.ReserveStaysWithin(before[cand.id], cand, vcpu, mem, cfg);
  }

  lemma QueueWrites(s: State, c: nat, st: Settings)
    requires c < |s.creates| && s.creates[c].pc.Trying?
    requires s.creates[c].tried >= Limit(s.creates[c].pin, s.creates[c].picks, st.attempts)
    requires s.creates[c].pin.None? || s.creates[c].picks != []
    ensures var k := s.creates[c];
            Enabled(s, GiveUp(c), st) &&
            var s' := Step(s, GiveUp(c), st);
            s'.hosts == s.hosts && s'.tenants == s.tenants + [Tenant(Pending, None, 0, k.vcpu, k.mem, None)]
  {
  }

  lemma PutWrites(s: State, c: nat, st: Settings)
    requires c < |s.creates| && s.creates[c].pc.Holding?
    ensures var k := s.creates[c];
            Enabled(s, Put(c), st) &&
            var s' := Step(s, Put(c), st);
            s'.hosts == s.hosts && |s'.creates| == |s.creates| &&
            s'.tenants == s.tenants + [Tenant(Creating, Some(k.pc.host), k.pc.vmNum, k.vcpu, k.mem, None)] &&
            (k.clone ==> s'.creates[c] == k.(pc := Cloning(k.pc.host, |s.tenants|)))
  {
  }

  lemma CloneDoneWrites(s: State, c: nat, st: Settings)
    requires c < |s.creates| && s.creates[c].pc.Cloning?
    ensures Enabled(s, CloneDone(c), st)
    ensures Step(s, CloneDone(c), st).hosts == s.hosts && Step(s, CloneDone(c), st).tenants == s.tenants
  {
  }

  lemma CloneReleaseWrites(s: State, c: nat, host: HostId, t: nat, vcpu: int, mem: int, st: Settings)
    requires c < |s.creates| && s.creates[c].pc == Cloning(host, t)
    requires s.creates[c].vcpu == vcpu && s.creates[c].mem == mem
    ensures Enabled(s, CloneRelease(c), st) &&
            var s' := Step(s, CloneRelease(c), st);
            s'.tenants == s.tenants && s'.hosts == Charge(s.hosts, host, -vcpu, -mem, -1) &&
            |s'.creates| == |s.creates| && s'.creates[c].pc == Releasing(host, t)
  {
  }

  lemma CloneMarkWrites(s: State, c: nat, st: Settings)
    requires c < |s.creates| && s.creates[c].pc.Releasing? && s.creates[c].pc.tenant < |s.tenants|
    ensures var t := s.creates[c].pc.tenant;
            Enabled(s, CloneMark(c), st) &&
            var s' := Step(s, CloneMark(c), st);
            s'.hosts == s.hosts && s'.tenants == s.tenants[t := s.tenants[t].(status := TenantStatus.Deleted)]
  {
  }

  lemma ResizeWrites(start: State, events: seq<Event>, s: State, t: nat, newVcpu: int, id: HostId, delta: int,
                     st: Settings)
    requires Traced(start, events, s, st) && Enabled(s, Resize(t, newVcpu, id, delta), st)
    ensures var s' := Step(s, Resize(t, newVcpu, id, delta), st);
            Published(s.hosts[id]) &&
            s'.tenants == s.tenants[t := s.tenants[t].(vcpu := newVcpu)] &&
            s'.hosts == s.hosts[id := s.hosts[id].(usedVcpu := Some(s.hosts[id].usedVcpu.value + delta))]
  {
    TracedRows(start, events, s, st);
    var h := s.hosts[id];
    assert h.(usedMem := Some(h.usedMem.value + 0), vmCount := Some(h.vmCount.value + 0)) == h;
  }
}
