/** Do the load counters of a host match the tenants on it, and does the load fit?

    The central result is a conservation law: over every run, whatever is interleaved, the
    difference between what a host has booked and what lives on it changes by the drift of the
    events of the run, and `Drift` names every event that leaks and by how much. */
module Ledger {
  import opened Tables
  import opened Plane
  import opened Sums
  import HostRows
  import Capacity

  datatype Resource = Vcpu | Mem | Vms

  function Amount(r: Resource, vcpu: int, mem: int): int {
    match r case Vcpu => vcpu case Mem => mem case Vms => 1
  }

  function Used(r: Resource, h: Host): int {
    match r
    case Vcpu => h.usedVcpu.GetOr(0)
    case Mem => h.usedMem.GetOr(0)
    case Vms => h.vmCount.GetOr(0)
  }

  /** What a tenant row puts on host `h`: a deleted tenant puts nothing anywhere. */
  function Share(x: Tenant, r: Resource, h: HostId): int {
    if x.status != TenantStatus.Deleted && x.host == Some(h) then Amount(r, x.vcpu, x.mem) else 0
  }

  /** What a create in flight accounts for: a reserved slot whose tenant row is not written yet,
      or (negative) a released slot whose tenant row is not deleted yet. */
  function Claim(k: Create, r: Resource, h: HostId): int {
    match k.pc
    case Holding(g, _) => if g == h then Amount(r, k.vcpu, k.mem) else 0
    case Releasing(g, _) => if g == h then -Amount(r, k.vcpu, k.mem) else 0
    case _ => 0
  }

  function ShareOn(r: Resource, h: HostId): Tenant -> int { x => Share(x, r, h) }
  function ClaimOn(r: Resource, h: HostId): Create -> int { k => Claim(k, r, h) }

  ghost function Load(s: State, r: Resource, h: HostId): int { Total(s.tenants, ShareOn(r, h)) }
  ghost function Claims(s: State, r: Resource, h: HostId): int { Total(s.creates, ClaimOn(r, h)) }

  ghost function Slack(s: State, r: Resource, h: HostId): int
    requires h in s.hosts
  {
    Used(r, s.hosts[h]) - Load(s, r, h) - Claims(s, r, h)
  }

  /** The events that make booking and load part ways.  TTL expiry deletes a tenant without
      releasing its slot; failover books the target without releasing the source; starting a
      migration, or any other unguarded status write, resurrects a deleted tenant; a finished
      migration releases the source recorded at its start; a clone rollback releases the slot it
      reserved and deletes the row as it is by then; a resize commits the difference to the size,
      and on the host, that it read before it waited for the VM. */
  function Drift(s: State, e: Event, r: Resource, h: HostId): int {
    match e
    case TtlDelete(t) => if t < |s.tenants| then Share(s.tenants[t], r, h) else 0
    case StartMove(t, _) => Resurrection(s, t, r, h)
    case SetStatus(t, _) => Resurrection(s, t, r, h)
    case FinishMove(t) =>
      if t >= |s.tenants| || s.tenants[t].move.None? then 0
      else Share(s.tenants[t], r, h) -
           (if s.tenants[t].move.value.source == h then Amount(r, s.tenants[t].vcpu, s.tenants[t].mem) else 0)
    case Flip(t, target, _) =>
      if t >= |s.tenants| then 0
      else var x := s.tenants[t];
           Share(x, r, h) +
           (if target == h then Amount(r, OrElse(x.vcpu, 2), OrElse(x.mem, 4096)) - Amount(r, x.vcpu, x.mem) else 0)
    case CloneMark(c) =>
      if c >= |s.creates| || !s.creates[c].pc.Releasing? then 0
      else var k := s.creates[c];
           (if k.pc.tenant < |s.tenants| then Share(s.tenants[k.pc.tenant], r, h) else 0) -
           (if k.pc.host == h then Amount(r, k.vcpu, k.mem) else 0)
    case Resize(t, v, g, delta) =>
      if t >= |s.tenants| || !r.Vcpu? then 0
      else (if g == h then delta else 0) +
           Share(s.tenants[t], r, h) - Share(s.tenants[t].(vcpu := v), r, h)
    case _ => 0
  }

  function Resurrection(s: State, t: nat, r: Resource, h: HostId): int {
    if t < |s.tenants| && s.tenants[t].status == TenantStatus.Deleted && s.tenants[t].host == Some(h)
    then -Amount(r, s.tenants[t].vcpu, s.tenants[t].mem) else 0
  }

  // ---- Conservation ----

  /** What a step's create stops accounting for, and what it starts to. */
  ghost function ClaimShift(s: State, e: Event, st: Settings, r: Resource, h: HostId): int
    requires Enabled(s, e, st)
  {
    match Actor(e)
    case Some(c) => Claim(Step(s, e, st).creates[c], r, h) - Claim(s.creates[c], r, h)
    case None => 0
  }

  /** The same for tenant rows. */
  ghost function ShareShift(s: State, e: Event, st: Settings, r: Resource, h: HostId): int
    requires Enabled(s, e, st)
  {
    var s' := Step(s, e, st);
    match Target(s, e)
    case Some(t) => if t < |s.tenants| then Share(s'.tenants[t], r, h) - Share(s.tenants[t], r, h) else 0
    case None => if |s'.tenants| > |s.tenants| then Share(s'.tenants[|s.tenants|], r, h) else 0
  }

  lemma CreatesAfter(s: State, e: Event, st: Settings, r: Resource, h: HostId)
    requires Enabled(s, e, st)
    ensures var s' := Step(s, e, st);
            Claims(s', r, h) == Claims(s, r, h) + ClaimShift(s, e, st, r, h)
  {
    var s' := Step(s, e, st);
    var f := ClaimOn(r, h);
    if e.Arrive? {
      TotalAppend(s.creates, s'.creates[|s.creates|], f);
      assert s'.creates == s.creates + [s'.creates[|s.creates|]];
    } else if Actor(e).Some? {
      var c := Actor(e).value;
      TotalUpdate(s.creates, c, s'.creates[c], f);
      assert s'.creates == s.creates[c := s'.creates[c]];
    } else {
      assert s'.creates == s.creates;
    }
  }

  /** The tenant row an event rewrites, if any. */
  function Target(s: State, e: Event): Option<nat> {
    match e
    case Delete(t) => Some(t)
    case Resize(t, _, _, _) => Some(t)
    case SetStatus(t, _) => Some(t)
    case TtlDelete(t) => Some(t)
    case StartMove(t, _) => Some(t)
    case FinishMove(t) => Some(t)
    case Flip(t, _, _) => Some(t)
    case CloneMark(c) =>
      if c < |s.creates| && s.creates[c].pc.Releasing? then Some(s.creates[c].pc.tenant) else None
    case _ => None
  }

  /** A step appends one tenant row, rewrites its target's, or leaves the table alone. */
  lemma TenantRowsAfter(s: State, e: Event, st: Settings)
    requires Enabled(s, e, st)
    ensures var ts, ts' := s.tenants, Step(s, e, st).tenants;
            if |ts'| > |ts| then ts' == ts + [ts'[|ts|]] && Target(s, e).None?
            else |ts'| == |ts| &&
                 if Target(s, e).Some? && Target(s, e).value < |ts|
                 then ts' == ts[Target(s, e).value := ts'[Target(s, e).value]]
                 else ts' == ts
  {
  }

  lemma TenantsAfter(s: State, e: Event, st: Settings, r: Resource, h: HostId)
    requires Enabled(s, e, st)
    ensures Load(Step(s, e, st), r, h) == Load(s, r, h) + ShareShift(s, e, st, r, h)
  {
    TenantRowsAfter(s, e, st);
    LoadShift(s, Step(s, e, st), Target(s, e), r, h);
  }

  lemma LoadShift(s: State, s': State, target: Option<nat>, r: Resource, h: HostId)
    requires if |s'.tenants| > |s.tenants|
             then s'.tenants == s.tenants + [s'.tenants[|s.tenants|]]
             else |s'.tenants| == |s.tenants| &&
                  if target.Some? && target.value < |s.tenants|
                  then s'.tenants == s.tenants[target.value := s'.tenants[target.value]]
                  else s'.tenants == s.tenants
    ensures Load(s', r, h) == Load(s, r, h) +
              (if |s'.tenants| > |s.tenants| then Share(s'.tenants[|s.tenants|], r, h)
               else if target.Some? && target.value < |s.tenants|
               then Share(s'.tenants[target.value], r, h) - Share(s.tenants[target.value], r, h) else 0)
  {
    var f := ShareOn(r, h);
    if |s'.tenants| > |s.tenants| {
      TotalAppend(s.tenants, s'.tenants[|s.tenants|], f);
    } else if target.Some? && target.value < |s.tenants| {
      TotalUpdate(s.tenants, target.value, s'.tenants[target.value], f);
    }
  }

  /** What an event adds to the counters of host `h`. */
  ghost function Booking(s: State, e: Event, st: Settings, r: Resource, h: HostId): int
    requires Enabled(s, e, st) && h in s.hosts
  {
    match e
    case Try(c) =>
      var k := s.creates[c];
      var seen := k.picks[k.tried];
      if seen.id == h && HostRows.Reserve(s.hosts[h], seen, k.vcpu, k.mem, st.cfg).Booked?
      then Amount(r, k.vcpu, k.mem) else 0
    case CloneRelease(c) =>
      if s.creates[c].pc.host == h then -Amount(r, s.creates[c].vcpu, s.creates[c].mem) else 0
    case Delete(t) =>
      if s.tenants[t].host == Some(h) then -Amount(r, s.tenants[t].vcpu, s.tenants[t].mem) else 0
    case Resize(_, _, g, delta) => if g == h && r.Vcpu? then delta else 0
    case FinishMove(t) =>
      var x := s.tenants[t];
      (if x.move.value.target == h then Amount(r, x.vcpu, x.mem) else 0) -
      (if x.move.value.source == h then Amount(r, x.vcpu, x.mem) else 0)
    case Flip(t, target, _) =>
      if target == h then Amount(r, OrElse(s.tenants[t].vcpu, 2), OrElse(s.tenants[t].mem, 4096)) else 0
    case _ => 0
  }

  lemma CountersAfter(s: State, e: Event, st: Settings, r: Resource, h: HostId)
    requires Inv(s) && Enabled(s, e, st) && h in s.hosts
    ensures h in Step(s, e, st).hosts
    ensures Used(r, Step(s, e, st).hosts[h]) == Used(r, s.hosts[h]) + Booking(s, e, st, r, h)
  {
    StepRow(s, e, st, h);
    RowBooking(s, e, st, r, h);
  }

  lemma RowBooking(s: State, e: Event, st: Settings, r: Resource, h: HostId)
    requires Inv(s) && Enabled(s, e, st) && h in s.hosts
    ensures Used(r, RowAfter(s, e, st, h)) == Used(r, s.hosts[h]) + Booking(s, e, st, r, h)
  {
    assert Published(s.hosts[h]);
    if e.FinishMove? {
      assert TenantOk(s, s.tenants[e.t]) && MoveOk(s, s.tenants[e.t].move.value);
    }
  }

  lemma DriftIsTheDifference(s: State, e: Event, st: Settings, r: Resource, h: HostId)
    requires Inv(s) && Enabled(s, e, st) && h in s.hosts
    ensures Booking(s, e, st, r, h) - ClaimShift(s, e, st, r, h) - ShareShift(s, e, st, r, h) == Drift(s, e, r, h)
  {
    if Actor(e).Some? { CreateDrift(s, e, st, r, h); } else { TenantDrift(s, e, st, r, h); }
  }

  lemma CreateDrift(s: State, e: Event, st: Settings, r: Resource, h: HostId)
    requires Inv(s) && Enabled(s, e, st) && h in s.hosts && Actor(e).Some?
    ensures Booking(s, e, st, r, h) - ClaimShift(s, e, st, r, h) - ShareShift(s, e, st, r, h) == Drift(s, e, r, h)
  {
  }

  lemma TenantDrift(s: State, e: Event, st: Settings, r: Resource, h: HostId)
    requires Inv(s) && Enabled(s, e, st) && h in s.hosts && Actor(e).None?
    ensures Booking(s, e, st, r, h) - ClaimShift(s, e, st, r, h) - ShareShift(s, e, st, r, h) == Drift(s, e, r, h)
  {
  }

  /** One step, any step, any host, any resource. */
  lemma StepConserves(s: State, e: Event, st: Settings, r: Resource, h: HostId)
    requires Inv(s) && Enabled(s, e, st) && h in s.hosts
    ensures h in Step(s, e, st).hosts
    ensures Slack(Step(s, e, st), r, h) == Slack(s, r, h) + Drift(s, e, r, h)
  {
    CountersAfter(s, e, st, r, h);
    CreatesAfter(s, e, st, r, h);
    TenantsAfter(s, e, st, r, h);
    DriftIsTheDifference(s, e, st, r, h);
  }

  ghost function RunDrift(states: seq<State>, events: seq<Event>, r: Resource, h: HostId, n: nat): int
    requires n <= |events| <= |states|
  {
    if n == 0 then 0
    else RunDrift(states, events, r, h, n - 1) + Drift(states[n - 1], events[n - 1], r, h)
  }

  /** The conservation law over every run. */
  lemma {:induction false} RunConserves(states: seq<State>, events: seq<Event>, st: Settings,
                                        r: Resource, h: HostId, n: nat)
    requires Run(states, events, st) && n <= |events| && h in states[0].hosts
    ensures h in states[n].hosts
    ensures Slack(states[n], r, h) == Slack(states[0], r, h) + RunDrift(states, events, r, h, n)
  {
    if n > 0 {
      RunConserves(states, events, st, r, h, n - 1);
      RunKeepsInv(states, events, st, n - 1);
      StepConserves(states[n - 1], events[n - 1], st, r, h);
    }
  }

  // ---- Runs in which the counters are right ----

  /** The create's clone is running, or failed and is being rolled back. */
  predicate Cloner(k: Create) { k.pc.Cloning? || k.pc.Releasing? }

  predicate InClone(k: Create, t: nat) { Cloner(k) && k.pc.tenant == t }

  ghost predicate BeingCloned(s: State, t: nat) {
    exists c :: 0 <= c < |s.creates| && InClone(s.creates[c], t)
  }

  /** Nobody else touches a tenant whose clone is still running, and every migration in flight
      still has its tenant on the source it recorded. */
  ghost predicate Orderly(s: State) {
    (forall c | 0 <= c < |s.creates| && Cloner(s.creates[c]) ::
       s.creates[c].pc.tenant < |s.tenants| && OwnedBy(s.tenants[s.creates[c].pc.tenant], s.creates[c])) &&
    (forall c, d | 0 <= c < d < |s.creates| && Cloner(s.creates[c]) ::
       !InClone(s.creates[d], s.creates[c].pc.tenant)) &&
    (forall t | 0 <= t < |s.tenants| && s.tenants[t].status == Migrating ::
       s.tenants[t].move.Some? && s.tenants[t].host == Some(s.tenants[t].move.value.source))
  }

  predicate OwnedBy(x: Tenant, k: Create)
    requires Cloner(k)
  {
    x.status != TenantStatus.Deleted && x.status != Migrating && x.host == Some(k.pc.host) &&
    x.vcpu == k.vcpu && x.mem == k.mem
  }

  /** What a resize read is still so when it commits. */
  predicate Current(s: State, t: nat, newVcpu: int, h: HostId, delta: int) {
    t < |s.tenants| && s.tenants[t].status != TenantStatus.Deleted && s.tenants[t].host == Some(h) &&
    newVcpu - s.tenants[t].vcpu == delta
  }

  /** Conditions a caller can check before the event, under which nothing leaks. */
  ghost predicate Tidy(s: State, e: Event) {
    match e
    case TtlDelete(_) => false
    case Flip(_, _, _) => false
    case StartMove(t, _) => t < |s.tenants| && s.tenants[t].status != TenantStatus.Deleted && !BeingCloned(s, t)
    case SetStatus(t, _) => t < |s.tenants| && s.tenants[t].status != TenantStatus.Deleted
    case Delete(t) => !BeingCloned(s, t)
    case Resize(t, v, h, delta) => !BeingCloned(s, t) && Current(s, t, v, h, delta)
    case FinishMove(t) => !BeingCloned(s, t)
    case _ => true
  }

  /** `Tidy` with TTL expiry and failover added. */
  ghost predicate Loose(s: State, e: Event) {
    match e
    case TtlDelete(t) => !BeingCloned(s, t)
    case Flip(t, _, _) => !BeingCloned(s, t)
    case _ => Tidy(s, e)
  }

  lemma LooseKeepsOwned(s: State, e: Event, st: Settings, c: nat)
    requires Inv(s) && Enabled(s, e, st) && Orderly(s) && Loose(s, e)
    requires c < |Step(s, e, st).creates| && Cloner(Step(s, e, st).creates[c])
    ensures var s' := Step(s, e, st);
            s'.creates[c].pc.tenant < |s'.tenants| && OwnedBy(s'.tenants[s'.creates[c].pc.tenant], s'.creates[c])
  {
    if c < |s.creates| && Cloner(s.creates[c]) {
      var k := s.creates[c];
      assert InClone(k, k.pc.tenant) && BeingCloned(s, k.pc.tenant);
      if e.CloneMark? {
        assert e.c < c ==> !InClone(s.creates[c], s.creates[e.c].pc.tenant);
        assert c < e.c ==> !InClone(s.creates[e.c], s.creates[c].pc.tenant);
      }
      LooseLeavesClone(s, e, st, k.pc.tenant);
    } else {
      assert e == Put(c);
    }
  }

  /** A tenant that is being cloned keeps what its create relies on. */
  lemma LooseLeavesClone(s: State, e: Event, st: Settings, t: nat)
    requires Enabled(s, e, st) && Loose(s, e) && t < |s.tenants| && BeingCloned(s, t)
    requires e.CloneMark? ==> s.creates[e.c].pc.tenant != t
    ensures var s' := Step(s, e, st);
            t < |s'.tenants| &&
            var x, x' := s.tenants[t], s'.tenants[t];
            x'.host == x.host && x'.vcpu == x.vcpu && x'.mem == x.mem &&
            (x.status != TenantStatus.Deleted && x.status != Migrating ==>
               x'.status != TenantStatus.Deleted && x'.status != Migrating)
  {
  }

  lemma LooseKeepsApart(s: State, e: Event, st: Settings, c: nat, d: nat)
    requires Inv(s) && Enabled(s, e, st) && Orderly(s)
    requires c < d < |Step(s, e, st).creates| && Cloner(Step(s, e, st).creates[c])
    ensures !InClone(Step(s, e, st).creates[d], Step(s, e, st).creates[c].pc.tenant)
  {
    if d < |s.creates| {
      StillCloning(s, e, st, c);
      if Cloner(Step(s, e, st).creates[d]) { StillCloning(s, e, st, d); }
      assert e != Put(c) && Cloner(s.creates[c]) ==> !InClone(s.creates[d], s.creates[c].pc.tenant);
      assert CreateOk(s, s.creates[c]) && CreateOk(s, s.creates[d]);
    }
  }

  /** A clone in progress after a step was there before, or its row was just written. */
  lemma StillCloning(s: State, e: Event, st: Settings, c: nat)
    requires Enabled(s, e, st) && c < |s.creates| && Cloner(Step(s, e, st).creates[c])
    ensures if e == Put(c) then Step(s, e, st).creates[c].pc.tenant == |s.tenants|
            else InClone(s.creates[c], Step(s, e, st).creates[c].pc.tenant)
  {
  }

  lemma LooseKeepsMoves(s: State, e: Event, st: Settings, t: nat)
    requires Enabled(s, e, st) && Orderly(s) && Loose(s, e)
    requires t < |Step(s, e, st).tenants| && Step(s, e, st).tenants[t].status == Migrating
    ensures var x := Step(s, e, st).tenants[t]; x.move.Some? && x.host == Some(x.move.value.source)
  {
  }

  lemma LooseKeepsOrderly(s: State, e: Event, st: Settings)
    requires Inv(s) && Enabled(s, e, st) && Orderly(s) && Loose(s, e)
    ensures Orderly(Step(s, e, st))
  {
    var s' := Step(s, e, st);
    forall c | 0 <= c < |s'.creates| && Cloner(s'.creates[c])
      ensures s'.creates[c].pc.tenant < |s'.tenants|
      ensures OwnedBy(s'.tenants[s'.creates[c].pc.tenant], s'.creates[c])
    {
      LooseKeepsOwned(s, e, st, c);
    }
    forall c, d | 0 <= c < d < |s'.creates| && Cloner(s'.creates[c])
      ensures !InClone(s'.creates[d], s'.creates[c].pc.tenant)
    {
      LooseKeepsApart(s, e, st, c, d);
    }
    forall t | 0 <= t < |s'.tenants| && s'.tenants[t].status == Migrating
      ensures s'.tenants[t].move.Some? && s'.tenants[t].host == Some(s'.tenants[t].move.value.source)
    {
      LooseKeepsMoves(s, e, st, t);
    }
  }

  lemma DriftWhenOrderly(s: State, e: Event, st: Settings, r: Resource, h: HostId)
    requires Inv(s) && Enabled(s, e, st) && Orderly(s) && Loose(s, e)
    ensures Tidy(s, e) ==> Drift(s, e, r, h) == 0
    ensures SizesOk(s) ==> Drift(s, e, r, h) >= 0
  {
  }

  ghost predicate SizesOk(s: State) {
    (forall t | 0 <= t < |s.tenants| :: s.tenants[t].vcpu >= 0 && s.tenants[t].mem >= 0) &&
    (forall c | 0 <= c < |s.creates| :: s.creates[c].vcpu >= 0 && s.creates[c].mem >= 0)
  }

  predicate SizeAsked(e: Event) {
    (e.Arrive? ==> e.vcpu >= 0 && e.mem >= 0) && (e.Resize? ==> e.newVcpu >= 0)
  }

  lemma StepKeepsSizes(s: State, e: Event, st: Settings)
    requires Enabled(s, e, st) && SizesOk(s) && SizeAsked(e)
    ensures SizesOk(Step(s, e, st))
  {
  }

  /** A registered fleet with nothing on it. */
  ghost predicate Opening(s: State) {
    Inv(s) && s.tenants == [] && s.creates == [] && s.issued == [] && s.reserved == {} &&
    forall h <- s.hosts :: forall r :: Used(r, s.hosts[h]) == 0
  }

  lemma OpeningIsBalanced(s: State, r: Resource, h: HostId)
    requires Opening(s) && h in s.hosts
    ensures Orderly(s) && SizesOk(s) && Slack(s, r, h) == 0
  {
    assert Used(r, s.hosts[h]) == 0;
  }

  ghost predicate LooseRun(states: seq<State>, events: seq<Event>, st: Settings) {
    Run(states, events, st) && Orderly(states[0]) && SizesOk(states[0]) &&
    forall i | 0 <= i < |events| :: Loose(states[i], events[i]) && SizeAsked(events[i])
  }

  ghost predicate TidyRun(states: seq<State>, events: seq<Event>, st: Settings) {
    LooseRun(states, events, st) && forall i | 0 <= i < |events| :: Tidy(states[i], events[i])
  }

  /** Booked load, from any orderly start: what is booked over the load never falls on a run with
      failover and TTL expiry, and stays what it was (nothing, from an opening fleet) on a run
      without. */
  lemma {:induction false} BookedLoad(states: seq<State>, events: seq<Event>, st: Settings,
                                      r: Resource, h: HostId, n: nat)
    requires LooseRun(states, events, st) && n <= |events| && h in states[0].hosts
    ensures Inv(states[n]) && Orderly(states[n]) && SizesOk(states[n]) && h in states[n].hosts
    ensures Slack(states[n], r, h) >= Slack(states[0], r, h)
    ensures TidyRun(states, events, st) ==> Slack(states[n], r, h) == Slack(states[0], r, h)
  {
    if n > 0 {
      BookedLoad(states, events, st, r, h, n - 1);
      StepKeepsInv(states[n - 1], events[n - 1], st);
      LooseKeepsOrderly(states[n - 1], events[n - 1], st);
      StepKeepsSizes(states[n - 1], events[n - 1], st);
      StepConserves(states[n - 1], events[n - 1], st, r, h);
      DriftWhenOrderly(states[n - 1], events[n - 1], st, r, h);
    }
  }

  /** From an opening fleet: the counters are at least the load, slots in flight included, and exactly
      it without failover and TTL expiry; once no create is in flight they are the load itself. */
  lemma BookedLoadAtRest(states: seq<State>, events: seq<Event>, st: Settings, r: Resource, h: HostId)
    requires LooseRun(states, events, st) && Opening(states[0]) && h in states[0].hosts
    ensures var s := states[|events|];
            h in s.hosts && Used(r, s.hosts[h]) >= Load(s, r, h) + Claims(s, r, h) &&
            (TidyRun(states, events, st) ==> Used(r, s.hosts[h]) == Load(s, r, h) + Claims(s, r, h)) &&
            (TidyRun(states, events, st) && (forall k <- s.creates :: !k.pc.Holding? && !k.pc.Releasing?) ==>
               Used(r, s.hosts[h]) == Load(s, r, h))
  {
    OpeningIsBalanced(states[0], r, h);
    BookedLoad(states, events, st, r, h, |events|);
    if forall k <- states[|events|].creates :: !k.pc.Holding? && !k.pc.Releasing? {
      TotalZero(states[|events|].creates, ClaimOn(r, h));
    }
  }

  /** The leak a delete causes while the tenant's clone is running: when the clone then fails, the
      slot is released twice and the host ends up booked for one VM less than it carries. */
  lemma DeleteDuringCloneReleasesTwice(s: State, c: nat, st: Settings, r: Resource)
    requires Inv(s) && Orderly(s) && c < |s.creates| && s.creates[c].pc.Cloning?
    ensures var k := s.creates[c];
            var t := k.pc.tenant;
            t < |s.tenants| && Enabled(s, Delete(t), st) &&
            var s1 := Step(s, Delete(t), st);
            Enabled(s1, CloneRelease(c), st) &&
            var s2 := Step(s1, CloneRelease(c), st);
            Enabled(s2, CloneMark(c), st) &&
            var s3 := Step(s2, CloneMark(c), st);
            k.pc.host in s.hosts && k.pc.host in s3.hosts &&
            Slack(s3, r, k.pc.host) == Slack(s, r, k.pc.host) - Amount(r, k.vcpu, k.mem)
  {
    var k := s.creates[c];
    var t := k.pc.tenant;
    assert CreateOk(s, k);
    StepKeepsInv(s, Delete(t), st);
    StepConserves(s, Delete(t), st, r, k.pc.host);
    CloneFailsAfterDelete(Step(s, Delete(t), st), c, st, r);
  }

  lemma CloneFailsAfterDelete(s: State, c: nat, st: Settings, r: Resource)
    requires Inv(s) && c < |s.creates| && s.creates[c].pc.Cloning? && s.creates[c].pc.tenant < |s.tenants|
    requires s.tenants[s.creates[c].pc.tenant].status == TenantStatus.Deleted
    ensures var k := s.creates[c];
            Enabled(s, CloneRelease(c), st) &&
            var s2 := Step(s, CloneRelease(c), st);
            Enabled(s2, CloneMark(c), st) &&
            var s3 := Step(s2, CloneMark(c), st);
            k.pc.host in s.hosts && k.pc.host in s3.hosts &&
            Slack(s3, r, k.pc.host) == Slack(s, r, k.pc.host) - Amount(r, k.vcpu, k.mem)
  {
    var k := s.creates[c];
    assert CreateOk(s, k);
    StepKeepsInv(s, CloneRelease(c), st);
    StepConserves(s, CloneRelease(c), st, r, k.pc.host);
    StepConserves(Step(s, CloneRelease(c), st), CloneMark(c), st, r, k.pc.host);
  }

  // ---- Capacity ----

  /** A step that books on `h` without a condition finds the room it takes. */
  ghost predicate Roomy(s: State, e: Event, st: Settings, h: HostId) {
    match e
    case FinishMove(t) =>
      t < |s.tenants| && s.tenants[t].move.Some? && s.tenants[t].move.value.target == h && h in s.hosts ==>
        HostRows.Reserve(s.hosts[h], s.hosts[h], s.tenants[t].vcpu, s.tenants[t].mem, st.cfg).Booked?
    case Flip(t, target, _) =>
      t < |s.tenants| && target == h && h in s.hosts ==>
        HostRows.Reserve(s.hosts[h], s.hosts[h], OrElse(s.tenants[t].vcpu, 2),
                         OrElse(s.tenants[t].mem, 4096), st.cfg).Booked?
    case Resize(_, _, g, delta) =>
      g == h && h in s.hosts ==> delta <= Capacity.FreeVcpu(s.hosts[h], st.cfg)
    case _ => true
  }

  /** Any step keeps a host within capacity exactly when it is roomy: nothing but the completion of a
      migration or a failover, or the commit of a resize, can break it, and those do exactly when
      what they add does not fit by then. */
  lemma StepWithinIff(s: State, e: Event, st: Settings, h: HostId)
    requires Inv(s) && Enabled(s, e, st) && SizesOk(s) && h in s.hosts && Within(s.hosts[h], st.cfg)
    ensures h in Step(s, e, st).hosts
    ensures Within(Step(s, e, st).hosts[h], st.cfg) <==> Roomy(s, e, st, h)
  {
    StepRow(s, e, st, h);
    RowWithinIff(s, e, st, h);
  }

  lemma RowWithinIff(s: State, e: Event, st: Settings, h: HostId)
    requires Inv(s) && Enabled(s, e, st) && SizesOk(s) && h in s.hosts && Within(s.hosts[h], st.cfg)
    ensures Within(RowAfter(s, e, st, h), st.cfg) <==> Roomy(s, e, st, h)
  {
    match e
    case Try(c) => TryStaysWithin(s, c, st, h);
    case FinishMove(t) => FinishMoveRowIff(s, t, st, h);
    case Flip(t, target, n) =>
      HostRows.BumpWithinIff(s.hosts[h], n, OrElse(s.tenants[t].vcpu, 2), OrElse(s.tenants[t].mem, 4096), st.cfg);
    case _ =>
  }

  lemma TryStaysWithin(s: State, c: nat, st: Settings, h: HostId)
    requires Inv(s) && Enabled(s, Try(c), st) && h in s.hosts && Within(s.hosts[h], st.cfg)
    ensures Within(RowAfter(s, Try(c), st, h), st.cfg)
  {
    var k := s.creates[c];
    assert CreateOk(s, k) && k.picks[k.tried] in k.picks;
  }

  lemma FinishMoveRowIff(s: State, t: nat, st: Settings, h: HostId)
    requires Inv(s) && Enabled(s, FinishMove(t), st) && SizesOk(s) && h in s.hosts && Within(s.hosts[h], st.cfg)
    ensures Within(RowAfter(s, FinishMove(t), st, h), st.cfg) <==> Roomy(s, FinishMove(t), st, h)
  {
    var x := s.tenants[t];
    assert TenantOk(s, x);
    HostRows.BumpWithinIff(s.hosts[h], x.move.value.vmNum, x.vcpu, x.mem, st.cfg);
  }

  /** The check of a resize is not repeated either: two that fit a host one by one but not together, of
      any two tenants, leave it over capacity when both were checked before either committed. */
  lemma TwoResizesOversubscribe(s: State, t: nat, v: int, u: nat, w: int, h: HostId, d1: int, d2: int, st: Settings)
    requires Inv(s) && h in s.hosts && Within(s.hosts[h], st.cfg) && t < |s.tenants| && u < |s.tenants|
    requires 0 < d1 <= Capacity.FreeVcpu(s.hosts[h], st.cfg) && 0 < d2 <= Capacity.FreeVcpu(s.hosts[h], st.cfg)
    requires d1 + d2 > Capacity.FreeVcpu(s.hosts[h], st.cfg)
    ensures var e1, e2 := Resize(t, v, h, d1), Resize(u, w, h, d2);
            Enabled(s, e1, st) && Roomy(s, e1, st, h) && Roomy(s, e2, st, h) &&
            var s1 := Step(s, e1, st);
            Enabled(s1, e2, st) && !Roomy(s1, e2, st, h) &&
            h in Step(s1, e2, st).hosts && !Within(Step(s1, e2, st).hosts[h], st.cfg)
  {
    var e1, e2 := Resize(t, v, h, d1), Resize(u, w, h, d2);
    StepKeepsInv(s, e1, st);
    StepRow(s, e1, st, h);
    StepRow(Step(s, e1, st), e2, st, h);
  }

  /** Finishing a migration leaves the target within capacity exactly when the VM fits at that
      moment, whatever the target's load: the check made when the migration started is not
      repeated. */
  lemma FinishMoveWithinIff(s: State, t: nat, st: Settings)
    requires Inv(s) && Enabled(s, FinishMove(t), st)
    ensures var target := s.tenants[t].move.value.target;
            target in Step(s, FinishMove(t), st).hosts &&
            (Within(Step(s, FinishMove(t), st).hosts[target], st.cfg) <==> Roomy(s, FinishMove(t), st, target))
  {
    var x := s.tenants[t];
    assert TenantOk(s, x);
    HostRows.BumpWithinIff(s.hosts[x.move.value.target], x.move.value.vmNum, x.vcpu, x.mem, st.cfg);
  }

  /** Sizes asked for are not negative. */
  ghost predicate SizedRun(states: seq<State>, events: seq<Event>, st: Settings) {
    Run(states, events, st) && SizesOk(states[0]) && forall i | 0 <= i < |events| :: SizeAsked(events[i])
  }

  lemma {:induction false} SizesStayOk(states: seq<State>, events: seq<Event>, st: Settings, n: nat)
    requires SizedRun(states, events, st) && n < |states|
    ensures Inv(states[n]) && SizesOk(states[n]) && states[n].hosts.Keys == states[0].hosts.Keys
  {
    RunKeepsInv(states, events, st, n);
    if n > 0 {
      SizesStayOk(states, events, st, n - 1);
      StepKeepsSizes(states[n - 1], events[n - 1], st);
    }
  }

  lemma {:induction false} CountersStayWithin(states: seq<State>, events: seq<Event>, st: Settings,
                                              h: HostId, n: nat)
    requires SizedRun(states, events, st) && n < |states| && h in states[0].hosts
    requires Within(states[0].hosts[h], st.cfg)
    requires forall i | 0 <= i < n :: Roomy(states[i], events[i], st, h)
    ensures h in states[n].hosts && Within(states[n].hosts[h], st.cfg)
  {
    if n > 0 {
      CountersStayWithin(states, events, st, h, n - 1);
      SizesStayOk(states, events, st, n - 1);
      StepWithinIff(states[n - 1], events[n - 1], st, h);
    }
  }

  /** No oversubscription, exactly: over any run, whatever is interleaved, a host's counters stay
      within capacity throughout if and only if every migration and failover completed onto it and
      every resize committed on it found the room it took. */
  lemma CountersStayWithinIff(states: seq<State>, events: seq<Event>, st: Settings, h: HostId)
    requires SizedRun(states, events, st) && h in states[0].hosts && Within(states[0].hosts[h], st.cfg)
    ensures (forall i | 0 <= i < |states| :: h in states[i].hosts && Within(states[i].hosts[h], st.cfg)) <==>
            (forall i | 0 <= i < |events| :: Roomy(states[i], events[i], st, h))
  {
    if forall i | 0 <= i < |events| :: Roomy(states[i], events[i], st, h) {
      forall i | 0 <= i < |states| ensures h in states[i].hosts && Within(states[i].hosts[h], st.cfg) {
        CountersStayWithin(states, events, st, h, i);
      }
    }
    if forall i | 0 <= i < |states| :: h in states[i].hosts && Within(states[i].hosts[h], st.cfg) {
      forall i | 0 <= i < |events| ensures Roomy(states[i], events[i], st, h) {
        SizesStayOk(states, events, st, i);
        StepWithinIff(states[i], events[i], st, h);
        assert Within(states[i + 1].hosts[h], st.cfg);
      }
    }
  }

  /** Nor is the real load ever over capacity, from any start booked for at least its load, on runs
      that leave tenants being cloned alone, outside the window between a rollback's two writes. */
  lemma NeverOversubscribed(states: seq<State>, events: seq<Event>, st: Settings, h: HostId, n: nat)
    requires LooseRun(states, events, st) && n <= |events| && h in states[0].hosts
    requires Within(states[0].hosts[h], st.cfg) && forall r :: Slack(states[0], r, h) >= 0
    requires forall i | 0 <= i < n :: Roomy(states[i], events[i], st, h)
    requires forall k <- states[n].creates :: !k.pc.Releasing?
    ensures h in states[n].hosts && Published(states[n].hosts[h]) &&
            var row := states[n].hosts[h];
            Load(states[n], Vcpu, h) <= Allocatable(row.totalVcpu.value, st.cfg.cpuRatio) &&
            Load(states[n], Mem, h) <= Allocatable(row.totalMem.value, st.cfg.memRatio) &&
            (st.cfg.maxVms != 0 ==> Load(states[n], Vms, h) <= st.cfg.maxVms)
  {
    CountersStayWithin(states, events, st, h, n);
    LoadAtMostUsed(states, events, st, Vcpu, h, n);
    LoadAtMostUsed(states, events, st, Mem, h, n);
    LoadAtMostUsed(states, events, st, Vms, h, n);
  }

  lemma LoadAtMostUsed(states: seq<State>, events: seq<Event>, st: Settings, r: Resource, h: HostId, n: nat)
    requires LooseRun(states, events, st) && n <= |events| && h in states[0].hosts
    requires Slack(states[0], r, h) >= 0 && forall k <- states[n].creates :: !k.pc.Releasing?
    ensures h in states[n].hosts && Load(states[n], r, h) <= Used(r, states[n].hosts[h])
  {
    BookedLoad(states, events, st, r, h, n);
    ClaimsNonNegative(states[n].creates, r, h);
  }

  lemma {:induction false} ClaimsNonNegative(creates: seq<Create>, r: Resource, h: HostId)
    requires forall k <- creates :: !k.pc.Releasing? && k.vcpu >= 0 && k.mem >= 0
    ensures Total(creates, ClaimOn(r, h)) >= 0
  {
    if creates != [] {
      ClaimsNonNegative(creates[..|creates| - 1], r, h);
    }
  }

  // ---- Negative sizes ----

  predicate ReleaseKeepsWithin(row: Host, vcpu: int, mem: int, cfg: Config) {
    var released := HostRows.AddLoad(row, -vcpu, -mem, -1);
    Within(row, cfg) ==> released.Some? && Within(released.value, cfg)
  }

  /** Giving a slot back keeps every host within capacity exactly when the size is not negative. */
  lemma ReleaseKeepsWithinIff(vcpu: int, mem: int, cfg: Config)
    ensures (forall row :: ReleaseKeepsWithin(row, vcpu, mem, cfg)) <==> vcpu >= 0 && mem >= 0
  {
    var full := BareHost("i-1").(totalVcpu := Some(0), totalMem := Some(0), usedVcpu := Some(0),
                                 usedMem := Some(0), vmCount := Some(cfg.maxVms), nextVmNum := Some(1));
    NothingToAllocate(cfg);
    assert Within(full, cfg);
    assert ReleaseKeepsWithin(full, vcpu, mem, cfg) ==> vcpu >= 0 && mem >= 0;
  }

  lemma NothingToAllocate(cfg: Config)
    ensures Allocatable(0, cfg.cpuRatio) == 0 && Allocatable(0, cfg.memRatio) == 0
  {
  }

  const UNIT := Settings(Config(1.0, 1.0, 0), 3, 8)

  function Small(used: int, vms: int, next: int): Host {
    Host("i-1", Active, "a", None, Some(4), Some(8), Some(used), Some(0), Some(vms), Some(next), None, None)
  }

  /** A pinned create of `vcpu` that has read the only host. */
  lemma PinnedScan(states: seq<State>, events: seq<Event>, vcpu: int, clone: bool, row: Host)
    returns (states': seq<State>, events': seq<Event>)
    requires Run(states, events, UNIT) && states[|events|].hosts == map["i-1" := row] && row.id == "i-1"
    requires Capacity.Schedulable(row) && Capacity.HostFits(row, vcpu, 0, UNIT.cfg)
    ensures Run(states', events', UNIT) && states'[0] == states[0]
    ensures var s, s' := states[|events|], states'[|events'|];
            s'.hosts == s.hosts && s'.tenants == s.tenants &&
            s'.creates == s.creates + [Create(vcpu, 0, Some("i-1"), clone, [row], 0, Trying, 0, 0)]
    ensures forall e <- events' :: e in events || (!e.FinishMove? && !e.Flip? && !e.Resize?)
  {
    var s := states[|events|];
    var arrive, scan := Arrive(vcpu, 0, Some("i-1"), clone), Scan(|s.creates|, [row], [row]);
    var s1 := Step(s, arrive, UNIT);
    AppendStep(states, events, arrive, s1, UNIT);
    var s2 := Step(s1, scan, UNIT);
    AppendStep(states + [s1], events + [arrive], scan, s2, UNIT);
    states', events' := states + [s1] + [s2], events + [arrive] + [scan];
  }

  /** The same create up to its reservation. */
  lemma PinnedReservation(states: seq<State>, events: seq<Event>, vcpu: int, clone: bool, used: int, vms: int, next: int)
    returns (states': seq<State>, events': seq<Event>)
    requires Run(states, events, UNIT) && states[|events|].hosts == map["i-1" := Small(used, vms, next)]
    requires used + vcpu <= 4
    ensures Run(states', events', UNIT) && states'[0] == states[0]
    ensures var s, s' := states[|events|], states'[|events'|];
            s'.hosts == map["i-1" := Small(used + vcpu, vms + 1, next + 1)] && s'.tenants == s.tenants &&
            s'.creates == s.creates + [Create(vcpu, 0, Some("i-1"), clone, [Small(used, vms, next)], 0,
                                              Holding("i-1", next), 1, 0)]
    ensures forall e <- events' :: e in events || (!e.FinishMove? && !e.Flip? && !e.Resize?)
  {
    var c := |states[|events|].creates|;
    var row := Small(used, vms, next);
    assert Allocatable(4, 1.0) == 4 && Allocatable(8, 1.0) == 8;
    var ss, es := PinnedScan(states, events, vcpu, clone, row);
    var s := ss[|es|];
    assert HostRows.Reserve(row, row, vcpu, 0, UNIT.cfg) ==
           HostRows.Booked(Small(used + vcpu, vms + 1, next + 1), next);
    assert Enabled(s, Try(c), UNIT);
    var s' := Step(s, Try(c), UNIT);
    AppendStep(ss, es, Try(c), s', UNIT);
    states', events' := ss + [s'], es + [Try(c)];
  }

  /** Sizes are not checked for sign, and the sign matters: from an opening fleet a clone of -4 vCPU
      makes room for 8 vCPU on a host of 4, and its rollback leaves the host over capacity, with no
      migration or failover in sight. */
  lemma NegativeSizeOversubscribes() returns (states: seq<State>, events: seq<Event>)
    ensures Run(states, events, UNIT) && Opening(states[0])
    ensures "i-1" in states[0].hosts && Within(states[0].hosts["i-1"], UNIT.cfg)
    ensures forall i | 0 <= i < |events| :: Roomy(states[i], events[i], UNIT, "i-1")
    ensures "i-1" in states[|events|].hosts && !Within(states[|events|].hosts["i-1"], UNIT.cfg)
  {
    var s0 := State(map["i-1" := Small(0, 0, 1)], [], [], [], {});
    assert Allocatable(4, 1.0) == 4 && Allocatable(8, 1.0) == 8;
    states, events := PinnedReservation([s0], [], -4, true, 0, 0, 1);
    states, events := PutClone(states, events);
    states, events := PinnedReservation(states, events, 8, false, -4, 1, 2);
    states, events := CloneFails(states, events);
  }

  lemma PutClone(states: seq<State>, events: seq<Event>) returns (states': seq<State>, events': seq<Event>)
    requires Run(states, events, UNIT)
    requires var s := states[|events|];
             s.tenants == [] && |s.creates| == 1 && s.creates[0].pc.Holding? && s.creates[0].clone
    ensures Run(states', events', UNIT) && states'[0] == states[0] && events' == events + [Put(0)]
    ensures var s, s' := states[|events|], states'[|events'|];
            s'.hosts == s.hosts && |s'.creates| == 1 &&
            s'.creates[0] == s.creates[0].(pc := Cloning(s.creates[0].pc.host, 0))
  {
    var s' := Step(states[|events|], Put(0), UNIT);
    AppendStep(states, events, Put(0), s', UNIT);
    states', events' := states + [s'], events + [Put(0)];
  }

  lemma CloneFails(states: seq<State>, events: seq<Event>) returns (states': seq<State>, events': seq<Event>)
    requires Run(states, events, UNIT)
    requires var s := states[|events|];
             s.hosts == map["i-1" := Small(4, 2, 3)] && s.creates != [] &&
             s.creates[0].pc.Cloning? && s.creates[0].pc.host == "i-1" && s.creates[0].vcpu == -4 && s.creates[0].mem == 0
    ensures Run(states', events', UNIT) && states'[0] == states[0] && events' == events + [CloneRelease(0)]
    ensures states'[|events'|].hosts == map["i-1" := Small(8, 1, 3)]
  {
    var s' := Step(states[|events|], CloneRelease(0), UNIT);
    AppendStep(states, events, CloneRelease(0), s', UNIT);
    states', events' := states + [s'], events + [CloneRelease(0)];
  }
}
