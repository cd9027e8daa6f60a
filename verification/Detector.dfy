/** One run of the AZ failover detector: outages, cooldown, target choice and accounting; and the
    cooldown over whole sequences of runs.  The detector is serial (reserved concurrency 1). */
module Detector {
  import opened Tables
  import opened Sums
  import opened Capacity

  datatype Tenant = Tenant(id: TenantId, host: HostId, vcpu: int, mem: int)

  /** Python's `x or d` on a missing or zero integer. */
  function OrElse(x: int, d: int): int { if x == 0 then d else x }

  function WantedVcpu(t: Tenant): int { OrElse(t.vcpu, 1) }
  function WantedMem(t: Tenant): int { OrElse(t.mem, 4096) }

  datatype Settings = Settings(cfg: Config, thresholdMinutes: int, cooldownMinutes: int, queue: bool)

  // ---- Detection ----

  /** `is_host_unhealthy` */
  predicate Unhealthy(h: Host, now: int, minutes: int) {
    h.status == Gone || h.lastSeen.None? || now - h.lastSeen.value >= minutes * 60
  }

  /** A host counts as alive exactly when it is registered and its last heartbeat is younger than the
      threshold; without a new heartbeat it never does so again. */
  lemma AliveExactly(h: Host, now: int, later: int, minutes: int)
    ensures !Unhealthy(h, now, minutes) <==>
              h.status != Gone && exists seen :: h.lastSeen == Some(seen) && now < seen + minutes * 60
    ensures Unhealthy(h, now, minutes) && now <= later ==> Unhealthy(h, later, minutes)
  {
  }

  datatype Outage = Outage(az: string, hosts: set<HostId>)

  function HostsOf(hosts: seq<Host>, az: string): set<HostId> {
    set h <- hosts | h.az == az :: h.id
  }

  predicate Dark(hosts: seq<Host>, az: string, now: int, minutes: int) {
    az != "" && (exists h <- hosts :: h.az == az) && forall h <- hosts | h.az == az :: Unhealthy(h, now, minutes)
  }

  ghost predicate DistinctAzs(outages: seq<Outage>) {
    forall i, j | 0 <= i < j < |outages| :: outages[i].az != outages[j].az
  }

  /** `detect_unhealthy_azs`: one entry for each zone that has hosts, all of them unhealthy. */
  method DetectUnhealthyAzs(hosts: seq<Host>, now: int, minutes: int) returns (outages: seq<Outage>)
    ensures DistinctAzs(outages)
    ensures forall o <- outages :: Dark(hosts, o.az, now, minutes) && o.hosts == HostsOf(hosts, o.az)
    ensures forall az :: Dark(hosts, az, now, minutes) ==> exists o <- outages :: o.az == az
  {
    outages := [];
    for i := 0 to |hosts|
      invariant DistinctAzs(outages)
      invariant forall o <- outages :: Dark(hosts, o.az, now, minutes) && o.hosts == HostsOf(hosts, o.az)
      invariant forall k | 0 <= k < i && Dark(hosts, hosts[k].az, now, minutes) :: exists o <- outages :: o.az == hosts[k].az
    {
      var az := hosts[i].az;
      if Dark(hosts, az, now, minutes) && forall o <- outages :: o.az != az {
        var o := Outage(az, HostsOf(hosts, az));
        ghost var before := outages;
        outages := outages + [o];
        assert outages[|before|] == o;
        assert forall p <- before :: p in outages;
      }
    }
    forall az | Dark(hosts, az, now, minutes) ensures exists o <- outages :: o.az == az {
      var h :| h in hosts && h.az == az;
      var k :| 0 <= k < |hosts| && hosts[k] == h;
    }
  }

  /** Forced zones are spliced in behind the detected ones, unless detected already. */
  method AddForced(hosts: seq<Host>, detected: seq<Outage>, forced: seq<string>) returns (outages: seq<Outage>)
    requires DistinctAzs(detected) && (forall o <- detected :: o.hosts == HostsOf(hosts, o.az))
    requires forall i, j | 0 <= i < j < |forced| :: forced[i] != forced[j]
    ensures DistinctAzs(outages) && (forall o <- outages :: o.hosts == HostsOf(hosts, o.az))
    ensures forall az :: (exists o <- outages :: o.az == az) <==> az in forced || exists o <- detected :: o.az == az
  {
    outages := detected;
    for i := 0 to |forced|
      invariant DistinctAzs(outages) && (forall o <- outages :: o.hosts == HostsOf(hosts, o.az))
      invariant forall o <- detected :: o in outages
      invariant forall o <- outages :: o in detected || o.az in forced[..i]
      invariant forall k | 0 <= k < i :: exists o <- outages :: o.az == forced[k]
    {
      ghost var before := outages;
      if forall o <- detected :: o.az != forced[i] {
        outages := outages + [Outage(forced[i], HostsOf(hosts, forced[i]))];
        assert outages[|before|].az == forced[i];
      }
      assert forall o <- before :: o in outages;
      assert forced[..i + 1] == forced[..i] + [forced[i]];
    }
    assert forced[..|forced|] == forced;
  }

  // ---- Target choice ----

  predicate Admissible(h: Host, now: int, st: Settings, exclude: set<string>, vcpu: int, mem: int) {
    h.az !in exclude && !Unhealthy(h, now, st.thresholdMinutes) && HostFits(h, vcpu, mem, st.cfg)
  }

  /** `pick_target_host`: the best ranked admissible host, by position in the snapshot. */
  method PickTargetHost(hosts: seq<Host>, now: int, st: Settings, exclude: set<string>, vcpu: int, mem: int)
    returns (target: Option<nat>)
    requires DistinctIds(hosts)
    ensures target.None? ==> forall h <- hosts :: !Admissible(h, now, st, exclude, vcpu, mem)
    ensures target.Some? ==> target.value < |hosts| && Admissible(hosts[target.value], now, st, exclude, vcpu, mem)
    ensures target.Some? ==>
              forall h <- hosts | h.id != hosts[target.value].id && Admissible(h, now, st, exclude, vcpu, mem) ::
                Before(hosts[target.value], h, st.cfg)
  {
    var eligible := [];
    for i := 0 to |hosts|
      invariant DistinctIds(eligible)
      invariant forall h :: h in eligible <==>
                  h in hosts[..i] && h.az !in exclude && !Unhealthy(h, now, st.thresholdMinutes)
    {
      if hosts[i].az !in exclude && !Unhealthy(hosts[i], now, st.thresholdMinutes) {
        forall g | g in eligible ensures g.id != hosts[i].id {
          assert g in hosts[..i];
        }
        eligible := eligible + [hosts[i]];
      }
    }
    var ranked := RankHosts(eligible, vcpu, mem, st.cfg, {});
    if ranked == [] {
      forall h | h in hosts ensures !Admissible(h, now, st, exclude, vcpu, mem) {
        assert h in ranked <==> h in eligible && Eligible(h, vcpu, mem, st.cfg, {});
      }
      return None;
    }
    assert ranked[0] in ranked;
    var k: nat :| k < |hosts| && hosts[k] == ranked[0];
    forall h | h in hosts && h.id != hosts[k].id && Admissible(h, now, st, exclude, vcpu, mem)
      ensures Before(hosts[k], h, st.cfg)
    {
      assert h in ranked;
      var j :| 0 <= j < |ranked| && ranked[j] == h;
    }
    target := Some(k);
  }

  // ---- One batch ----

  datatype Outcome = Queued | QueueFailed | Recovered | SyncFailed | Blocked | NoTarget

  /** What happened to one affected tenant: the target chosen, the launch number the synchronous
      path takes from the in-memory row, the outcome. */
  datatype Entry = Entry(tenant: nat, host: HostId, az: string, vmNum: int, vcpu: int, outcome: Outcome)

  function VcpuIf(id: HostId): Entry -> int { (e: Entry) => if e.outcome == Queued && e.host == id then e.vcpu else 0 }
  function CountIf(id: HostId): Entry -> int {
    (e: Entry) => if (e.outcome == Queued || e.outcome == Recovered) && e.host == id then 1 else 0
  }
  /** The summary counter an outcome goes to. */
  datatype Bucket = QueuedB | FailedOverB | BlockedB | FailedB

  function BucketOf(o: Outcome): Bucket {
    match o
    case Queued => QueuedB
    case Recovered => FailedOverB
    case Blocked => BlockedB
    case _ => FailedB
  }

  function InBucket(b: Bucket): Entry -> int { (e: Entry) => if BucketOf(e.outcome) == b then 1 else 0 }

  ghost function QueuedVcpu(log: seq<Entry>, id: HostId): int { Total(log, VcpuIf(id)) }
  ghost function Placed(log: seq<Entry>, id: HostId): int { Total(log, CountIf(id)) }

  predicate Launched(e: Entry) { e.outcome == Recovered || e.outcome == SyncFailed }

  /** The number the next synchronous launch on a row would use. */
  function NextNumber(h: Host): int { OrElse(h.nextVmNum.GetOr(0), 1) }

  datatype Summary = Summary(queued: int, failedOver: int, blocked: int, failed: int)

  ghost predicate Accounts(s: Summary, log: seq<Entry>) {
    s.queued == Total(log, InBucket(QueuedB)) &&
    s.failedOver == Total(log, InBucket(FailedOverB)) &&
    s.blocked == Total(log, InBucket(BlockedB)) &&
    s.failed == Total(log, InBucket(FailedB))
  }

  /** A row of the in-memory snapshot is the scanned row plus what this batch placed on it. */
  ghost predicate RowBooked(scanned: Host, row: Host, log: seq<Entry>, cfg: Config) {
    SameHost(scanned, row) &&
    FreeVcpu(row, cfg) == FreeVcpu(scanned, cfg) - QueuedVcpu(log, scanned.id) &&
    row.vmCount.GetOr(0) == scanned.vmCount.GetOr(0) + Placed(log, scanned.id) &&
    ((exists e <- log :: e.outcome == Queued && e.host == scanned.id) ==> FreeVcpu(row, cfg) >= 0) &&
    ((exists e <- log :: (e.outcome == Queued || e.outcome == Recovered) && e.host == scanned.id) ==>
       cfg.maxVms != 0 ==> row.vmCount.GetOr(0) <= cfg.maxVms)
  }

  ghost predicate Booked(scan: seq<Host>, hosts: seq<Host>, log: seq<Entry>, cfg: Config) {
    |hosts| == |scan| && forall j | 0 <= j < |scan| :: RowBooked(scan[j], hosts[j], log, cfg)
  }

  predicate SameHost(a: Host, b: Host) {
    a.id == b.id && a.az == b.az && a.status == b.status && a.lastSeen == b.lastSeen && a.ip == b.ip &&
    a.totalVcpu == b.totalVcpu && a.totalMem == b.totalMem && a.usedMem == b.usedMem
  }

  ghost predicate NumbersAhead(hosts: seq<Host>, log: seq<Entry>) {
    (forall e <- log, j | 0 <= j < |hosts| && Launched(e) && e.host == hosts[j].id :: e.vmNum < NextNumber(hosts[j])) &&
    (forall a, b | 0 <= a < b < |log| && Launched(log[a]) && Launched(log[b]) && log[a].host == log[b].host ::
       log[a].vmNum != log[b].vmNum)
  }

  ghost predicate TargetsOk(scan: seq<Host>, log: seq<Entry>, now: int, st: Settings, exclude: set<string>) {
    forall e <- log | e.outcome != NoTarget ::
      exists h <- scan :: h.id == e.host && h.az == e.az && e.az !in exclude && !Unhealthy(h, now, st.thresholdMinutes)
  }

  ghost predicate DistinctTenants(log: seq<Entry>) {
    forall a, b | 0 <= a < b < |log| :: log[a].tenant != log[b].tenant
  }

  ghost predicate Good(scan: seq<Host>, hosts: seq<Host>, log: seq<Entry>, summary: Summary, now: int,
                       st: Settings, exclude: set<string>) {
    Booked(scan, hosts, log, st.cfg) && NumbersAhead(hosts, log) && TargetsOk(scan, log, now, st, exclude) &&
    Accounts(summary, log) && DistinctTenants(log)
  }

  /** The row a handled tenant leaves in the snapshot. */
  function RowAfter(h: Host, e: Entry): Host {
    match e.outcome
    case Queued => h.(vmCount := Some(h.vmCount.GetOr(0) + 1), usedVcpu := Some(h.usedVcpu.GetOr(0) + e.vcpu))
    case Recovered => h.(vmCount := Some(h.vmCount.GetOr(0) + 1), nextVmNum := Some(NextNumber(h) + 1))
    case SyncFailed => h.(nextVmNum := Some(NextNumber(h) + 1))
    case _ => h
  }

  function SummaryAfter(s: Summary, o: Outcome): Summary {
    match o
    case Queued => s.(queued := s.queued + 1)
    case Recovered => s.(failedOver := s.failedOver + 1)
    case Blocked => s.(blocked := s.blocked + 1)
    case _ => s.(failed := s.failed + 1)
  }

  lemma RowBookedAfter(scanned: Host, row: Host, log: seq<Entry>, cfg: Config, e: Entry, mem: int)
    requires RowBooked(scanned, row, log, cfg) && (e.host == row.id ==> HostFits(row, e.vcpu, mem, cfg))
    ensures RowBooked(scanned, if e.host == row.id then RowAfter(row, e) else row, log + [e], cfg)
  {
    TotalAppend(log, e, VcpuIf(scanned.id));
    TotalAppend(log, e, CountIf(scanned.id));
    assert forall x :: x in log + [e] <==> x in log || x == e;
  }

  lemma BookedAfter(scan: seq<Host>, hosts: seq<Host>, log: seq<Entry>, cfg: Config, k: nat, e: Entry, mem: int)
    requires DistinctIds(scan) && Booked(scan, hosts, log, cfg) && k < |hosts|
    requires e.host == hosts[k].id && HostFits(hosts[k], e.vcpu, mem, cfg)
    ensures Booked(scan, hosts[k := RowAfter(hosts[k], e)], log + [e], cfg)
  {
    var hosts' := hosts[k := RowAfter(hosts[k], e)];
    forall j | 0 <= j < |scan| ensures RowBooked(scan[j], hosts'[j], log + [e], cfg) {
      assert RowBooked(scan[j], hosts[j], log, cfg) && RowBooked(scan[k], hosts[k], log, cfg);
      assert j != k ==> scan[j].id != scan[k].id;
      RowBookedAfter(scan[j], hosts[j], log, cfg, e, mem);
    }
  }

  lemma NumbersAfter(hosts: seq<Host>, log: seq<Entry>, k: nat, e: Entry)
    requires DistinctIds(hosts) && NumbersAhead(hosts, log) && k < |hosts|
    requires e.host == hosts[k].id && (Launched(e) ==> e.vmNum == NextNumber(hosts[k]))
    ensures NumbersAhead(hosts[k := RowAfter(hosts[k], e)], log + [e])
  {
    var hosts', log' := hosts[k := RowAfter(hosts[k], e)], log + [e];
    assert Launched(e) ==> NextNumber(hosts'[k]) > NextNumber(hosts[k]);
    assert !Launched(e) ==> NextNumber(hosts'[k]) == NextNumber(hosts[k]);
    forall x, j | x in log' && 0 <= j < |hosts'| && Launched(x) && x.host == hosts'[j].id
      ensures x.vmNum < NextNumber(hosts'[j])
    {
      assert x in log || x == e;
      assert j != k ==> hosts[j].id != hosts[k].id;
    }
    forall a, b | 0 <= a < b < |log'| && Launched(log'[a]) && Launched(log'[b]) && log'[a].host == log'[b].host
      ensures log'[a].vmNum != log'[b].vmNum
    {
      assert log[a] in log;
    }
  }

  lemma TargetsAfter(scan: seq<Host>, hosts: seq<Host>, log: seq<Entry>, now: int, st: Settings,
                     exclude: set<string>, k: nat, e: Entry)
    requires TargetsOk(scan, log, now, st, exclude) && Booked(scan, hosts, log, st.cfg) && k < |hosts|
    requires e.host == hosts[k].id && e.az == hosts[k].az
    requires hosts[k].az !in exclude && !Unhealthy(hosts[k], now, st.thresholdMinutes)
    ensures TargetsOk(scan, log + [e], now, st, exclude)
  {
    assert SameHost(scan[k], hosts[k]) && scan[k] in scan;
    assert forall x :: x in log + [e] <==> x in log || x == e;
  }

  lemma AccountsAfter(s: Summary, log: seq<Entry>, e: Entry)
    requires Accounts(s, log)
    ensures Accounts(SummaryAfter(s, e.outcome), log + [e])
  {
    TotalAppend(log, e, InBucket(QueuedB));
    TotalAppend(log, e, InBucket(FailedOverB));
    TotalAppend(log, e, InBucket(BlockedB));
    TotalAppend(log, e, InBucket(FailedB));
  }

  lemma NoTargetAfter(scan: seq<Host>, hosts: seq<Host>, log: seq<Entry>, cfg: Config, now: int, st: Settings,
                      exclude: set<string>, e: Entry)
    requires e.outcome == NoTarget && Booked(scan, hosts, log, cfg) && NumbersAhead(hosts, log)
    requires TargetsOk(scan, log, now, st, exclude)
    ensures Booked(scan, hosts, log + [e], cfg) && NumbersAhead(hosts, log + [e])
    ensures TargetsOk(scan, log + [e], now, st, exclude)
  {
    forall j | 0 <= j < |scan|
      ensures QueuedVcpu(log + [e], scan[j].id) == QueuedVcpu(log, scan[j].id)
      ensures Placed(log + [e], scan[j].id) == Placed(log, scan[j].id)
    {
      TotalAppend(log, e, VcpuIf(scan[j].id));
      TotalAppend(log, e, CountIf(scan[j].id));
    }
    assert forall x :: x in log + [e] <==> x in log || x == e;
  }

  lemma {:induction false} OutcomesPartition(log: seq<Entry>)
    ensures Total(log, InBucket(QueuedB)) + Total(log, InBucket(FailedOverB)) +
            Total(log, InBucket(BlockedB)) + Total(log, InBucket(FailedB)) == |log|
    decreases |log|
  {
    if log != [] {
      var n, e := |log| - 1, log[|log| - 1];
      OutcomesPartition(log[..n]);
      assert InBucket(QueuedB)(e) + InBucket(FailedOverB)(e) + InBucket(BlockedB)(e) +
             InBucket(FailedB)(e) == 1;
    }
  }

  function Times(log: seq<Entry>, o: Outcome): nat {
    if log == [] then 0 else Times(log[..|log| - 1], o) + (if log[|log| - 1].outcome == o then 1 else 0)
  }

  /** What the four counters count: hand-overs queued, recoveries, blocked tenants, and everything that
      went wrong. */
  lemma {:induction false} CountersCount(log: seq<Entry>)
    ensures Total(log, InBucket(QueuedB)) == Times(log, Queued)
    ensures Total(log, InBucket(FailedOverB)) == Times(log, Recovered)
    ensures Total(log, InBucket(BlockedB)) == Times(log, Blocked)
    ensures Total(log, InBucket(FailedB)) == Times(log, QueueFailed) + Times(log, SyncFailed) + Times(log, NoTarget)
  {
    if log != [] {
      CountersCount(log[..|log| - 1]);
    }
  }

  lemma GoodAfter(scan: seq<Host>, hosts: seq<Host>, log: seq<Entry>, summary: Summary, now: int, st: Settings,
                  exclude: set<string>, k: nat, e: Entry, mem: int)
    requires DistinctIds(scan) && Good(scan, hosts, log, summary, now, st, exclude)
    requires forall x <- log :: x.tenant != e.tenant
    requires e.outcome != NoTarget ==>
               k < |hosts| && Admissible(hosts[k], now, st, exclude, e.vcpu, mem) &&
               e.host == hosts[k].id && e.az == hosts[k].az && (Launched(e) ==> e.vmNum == NextNumber(hosts[k]))
    ensures Good(scan, if e.outcome == NoTarget then hosts else hosts[k := RowAfter(hosts[k], e)], log + [e],
                 SummaryAfter(summary, e.outcome), now, st, exclude)
  {
    AccountsAfter(summary, log, e);
    SnapshotKeepsIds(scan, hosts, log, st.cfg);
    if e.outcome == NoTarget {
      NoTargetAfter(scan, hosts, log, st.cfg, now, st, exclude, e);
    } else {
      BookedAfter(scan, hosts, log, st.cfg, k, e, mem);
      NumbersAfter(hosts, log, k, e);
      TargetsAfter(scan, hosts, log, now, st, exclude, k, e);
    }
  }

  lemma SnapshotKeepsIds(scan: seq<Host>, hosts: seq<Host>, log: seq<Entry>, cfg: Config)
    requires DistinctIds(scan) && Booked(scan, hosts, log, cfg)
    ensures DistinctIds(hosts)
  {
    assert forall j | 0 <= j < |scan| :: RowBooked(scan[j], hosts[j], log, cfg) && SameHost(scan[j], hosts[j]);
  }

  /** How one tenant is dealt with: no admissible host, or the best of them, with the outcome of the
      hand-over booked on its row. */
  ghost predicate Placement(before: seq<Host>, after: seq<Host>, x: Tenant, e: Entry, outcome: Outcome, now: int,
                            st: Settings, exclude: set<string>) {
    if e.outcome == NoTarget then
      after == before && forall h <- before :: !Admissible(h, now, st, exclude, WantedVcpu(x), WantedMem(x))
    else
      exists k :: 0 <= k < |before| && PlacedAt(before, after, k, x, e, outcome, now, st, exclude)
  }

  ghost predicate PlacedAt(before: seq<Host>, after: seq<Host>, k: nat, x: Tenant, e: Entry, outcome: Outcome,
                           now: int, st: Settings, exclude: set<string>)
    requires k < |before|
  {
    var h := before[k];
    Admissible(h, now, st, exclude, WantedVcpu(x), WantedMem(x)) &&
    (forall g <- before | g.id != h.id && Admissible(g, now, st, exclude, WantedVcpu(x), WantedMem(x)) ::
       Before(h, g, st.cfg)) &&
    HostFits(h, if x.vcpu == 0 then 1 else x.vcpu, if x.mem == 0 then 4096 else x.mem, st.cfg) &&
    e.host == h.id && e.vcpu == (if x.vcpu == 0 then 1 else x.vcpu) && e.outcome == outcome &&
    e.vmNum == (if st.queue then 0 else NextNumber(h)) &&
    after == before[k := RowAfter(h, e)]
  }

  class Batch {
    const scan: seq<Host>
    const tenants: seq<Tenant>
    const now: int
    const st: Settings
    const exclude: set<string>
    var hosts: seq<Host>
    var log: seq<Entry>
    var summary: Summary

    constructor (scan: seq<Host>, tenants: seq<Tenant>, now: int, st: Settings, exclude: set<string>)
      requires DistinctIds(scan)
      ensures this.scan == scan && this.tenants == tenants && this.now == now && this.st == st && this.exclude == exclude
      ensures Valid() && log == [] && hosts == scan
    {
      this.scan, this.tenants, this.now, this.st, this.exclude := scan, tenants, now, st, exclude;
      hosts, log, summary := scan, [], Summary(0, 0, 0, 0);
    }

    ghost predicate Valid()
      reads this
    {
      DistinctIds(scan) && Good(scan, hosts, log, summary, now, st, exclude)
    }

    /** The body of the tenant loop: choose a target, hand the tenant over, book the snapshot. */
    method HandleTenant(t: nat, enqueued: Outcome, recovered: Outcome)
      requires Valid() && t < |tenants| && forall e <- log :: e.tenant != t
      requires enqueued in {Queued, QueueFailed, Blocked} && recovered in {Recovered, SyncFailed, Blocked}
      modifies this
      ensures Valid() && |log| == |old(log)| + 1 && log == old(log) + [log[|old(log)|]]
      ensures log[|old(log)|].tenant == t
      ensures Placement(old(hosts), hosts, tenants[t], log[|old(log)|], if st.queue then enqueued else recovered,
                        now, st, exclude)
    {
      SnapshotKeepsIds(scan, hosts, log, st.cfg);
      var x := tenants[t];
      var target := PickTargetHost(hosts, now, st, exclude, WantedVcpu(x), WantedMem(x));
      if target.None? {
        GiveUpOn(t);
      } else {
        var outcome := if st.queue then enqueued else recovered;
        ghost var before := hosts;
        HandOver(t, target.value, outcome);
        assert PlacedAt(before, hosts, target.value, x, log[|old(log)|], outcome, now, st, exclude);
      }
    }

    method GiveUpOn(t: nat)
      requires Valid() && t < |tenants| && forall e <- log :: e.tenant != t
      modifies this`summary, this`log
      ensures Valid() && log == old(log) + [Entry(t, "", "", 0, 0, NoTarget)]
    {
      GoodAfter(scan, hosts, log, summary, now, st, exclude, 0, Entry(t, "", "", 0, 0, NoTarget), 0);
      summary := summary.(failed := summary.failed + 1);
      log := log + [Entry(t, "", "", 0, 0, NoTarget)];
    }

    method HandOver(t: nat, k: nat, outcome: Outcome)
      requires Valid() && t < |tenants| && (forall e <- log :: e.tenant != t) && k < |hosts|
      requires Admissible(hosts[k], now, st, exclude, WantedVcpu(tenants[t]), WantedMem(tenants[t]))
      requires outcome != NoTarget && (st.queue ==> outcome != Recovered && outcome != SyncFailed)
      modifies this`hosts, this`summary, this`log
      ensures Valid()
      ensures var h := old(hosts)[k];
              var e := Entry(t, h.id, h.az, if st.queue then 0 else NextNumber(h), WantedVcpu(tenants[t]), outcome);
              log == old(log) + [e] && hosts == old(hosts)[k := RowAfter(h, e)]
    {
      var h := hosts[k];
      var e := Entry(t, h.id, h.az, if st.queue then 0 else NextNumber(h), WantedVcpu(tenants[t]), outcome);
      GoodAfter(scan, hosts, log, summary, now, st, exclude, k, e, WantedMem(tenants[t]));
      Book(k, e);
      log := log + [e];
    }

    /** The counters and the in-memory row after an attempt. */
    method Book(k: nat, e: Entry)
      requires k < |hosts| && e.outcome != NoTarget
      modifies this`hosts, this`summary
      ensures hosts == old(hosts)[k := RowAfter(old(hosts)[k], e)]
      ensures summary == SummaryAfter(old(summary), e.outcome)
    {
      var h := hosts[k];
      if e.outcome == Queued {
        summary := summary.(queued := summary.queued + 1);
        h := h.(vmCount := Some(h.vmCount.GetOr(0) + 1), usedVcpu := Some(h.usedVcpu.GetOr(0) + e.vcpu));
      } else if e.outcome == Recovered {
        summary := summary.(failedOver := summary.failedOver + 1);
        h := h.(vmCount := Some(h.vmCount.GetOr(0) + 1));
      } else if e.outcome == Blocked {
        summary := summary.(blocked := summary.blocked + 1);
      } else {
        summary := summary.(failed := summary.failed + 1);
      }
      if e.outcome == Recovered || e.outcome == SyncFailed {
        h := h.(nextVmNum := Some(OrElse(h.nextVmNum.GetOr(0), 1) + 1));
      }
      hosts := hosts[k := h];
    }

    /** The tenants of one outage, in scan order. */
    method HandleOutage(o: Outage, enqueued: seq<Outcome>, recovered: seq<Outcome>)
      requires Valid() && |enqueued| == |recovered| == |tenants|
      requires forall t | 0 <= t < |tenants| ::
                 enqueued[t] in {Queued, QueueFailed, Blocked} && recovered[t] in {Recovered, SyncFailed, Blocked}
      requires forall e <- log :: e.tenant < |tenants| && tenants[e.tenant].host !in o.hosts
      modifies this
      ensures Valid() && old(log) <= log
      ensures forall t | 0 <= t < |tenants| :: InLog(log, t) <==> InLog(old(log), t) || tenants[t].host in o.hosts
      ensures forall e <- log :: e.tenant < |tenants|
    {
      for t := 0 to |tenants|
        invariant Valid() && old(log) <= log
        invariant forall e <- log :: e.tenant < |tenants|
        invariant forall u | 0 <= u < |tenants| ::
                    InLog(log, u) <==> InLog(old(log), u) || (u < t && tenants[u].host in o.hosts)
      {
        if tenants[t].host in o.hosts {
          ghost var before := log;
          assert !InLog(log, t);
          HandleTenant(t, enqueued[t], recovered[t]);
          InLogAfter(before, log[|before|]);
        }
      }
    }
  }

  /** The tenant has been handled. */
  ghost predicate InLog(log: seq<Entry>, t: nat) {
    exists e <- log :: e.tenant == t
  }

  lemma InLogAfter(log: seq<Entry>, e: Entry)
    ensures forall t: nat :: InLog(log + [e], t) <==> InLog(log, t) || t == e.tenant
  {
    assert forall x :: x in log + [e] <==> x in log || x == e;
  }

  // ---- One run ----

  predicate Cooling(azState: map<string, int>, az: string, now: int, minutes: int) {
    az in azState && now - azState[az] < minutes * 60
  }

  predicate SomeZoneHealthy(hosts: seq<Host>, forced: seq<string>, now: int, minutes: int) {
    exists h <- hosts :: h.az != "" && h.az !in forced && !Unhealthy(h, now, minutes)
  }

  /** Some host of a zone that is not forced is alive. */
  ghost predicate ZoneAlive(scan: seq<Host>, forced: seq<string>, now: int, minutes: int) {
    exists h <- scan :: h.az != "" && h.az !in forced && h.status != Gone && h.lastSeen.Some? &&
                        now - h.lastSeen.value < minutes * 60
  }

  lemma ZoneAliveExactly(scan: seq<Host>, forced: seq<string>, now: int, minutes: int)
    ensures SomeZoneHealthy(Present(scan), forced, now, minutes) <==> ZoneAlive(scan, forced, now, minutes)
  {
  }

  function Present(scan: seq<Host>): (r: seq<Host>)
    ensures forall h :: h in r <==> h in scan && h.status != Gone
  {
    if scan == [] then []
    else
      assert scan == [scan[0]] + scan[1..];
      (if scan[0].status != Gone then [scan[0]] else []) + Present(scan[1..])
  }

  lemma {:induction false} PresentKeepsDistinct(scan: seq<Host>)
    requires DistinctIds(scan)
    ensures DistinctIds(Present(scan))
  {
    if scan != [] {
      PresentKeepsDistinct(scan[1..]);
      var rest := Present(scan[1..]);
      forall k | 0 <= k < |rest| ensures rest[k].id != scan[0].id {
        assert rest[k] in scan[1..];
      }
    }
  }

  lemma ZonesAreDisjoint(hosts: seq<Host>, a: string, b: string, id: HostId)
    requires DistinctIds(hosts) && id in HostsOf(hosts, a) && id in HostsOf(hosts, b)
    ensures a == b
  {
    var g :| g in hosts && g.az == a && g.id == id;
    var h :| h in hosts && h.az == b && h.id == id;
    var i :| 0 <= i < |hosts| && hosts[i] == g;
    var j :| 0 <= j < |hosts| && hosts[j] == h;
  }

  /** What a run does to the cooldown record, given the zones it acted on. */
  ghost predicate Stamps(before: map<string, int>, after: map<string, int>, now: int, forced: seq<string>,
                         acted: seq<string>, minutes: int) {
    (forall az :: az in after <==> az in before || az in acted) &&
    (forall az <- after :: after[az] == if az in acted then now else before[az]) &&
    (forall az <- acted :: az in forced || !Cooling(before, az, now, minutes))
  }

  lemma StampsExtend(before: map<string, int>, after: map<string, int>, now: int, forced: seq<string>,
                     acted: seq<string>, minutes: int, az: string)
    requires Stamps(before, after, now, forced, acted, minutes) && az !in acted
    requires az in forced || !Cooling(after, az, now, minutes)
    ensures Stamps(before, after[az := now], now, forced, acted + [az], minutes)
  {
  }

  /** The tenants handled are those on hosts of the zones acted on. */
  ghost predicate HandledExactly(tenants: seq<Tenant>, log: seq<Entry>, hosts: seq<Host>, acted: seq<string>) {
    (forall e <- log :: e.tenant < |tenants|) &&
    forall t | 0 <= t < |tenants| ::
      InLog(log, t) <==> (exists az <- acted :: tenants[t].host in HostsOf(hosts, az))
  }

  lemma NotHandledYet(tenants: seq<Tenant>, log: seq<Entry>, hosts: seq<Host>, acted: seq<string>, az: string)
    requires HandledExactly(tenants, log, hosts, acted) && DistinctIds(hosts) && az !in acted
    ensures forall e <- log :: tenants[e.tenant].host !in HostsOf(hosts, az)
  {
    forall e | e in log ensures tenants[e.tenant].host !in HostsOf(hosts, az) {
      assert exists x <- log :: x.tenant == e.tenant;
      var other :| other in acted && tenants[e.tenant].host in HostsOf(hosts, other);
      if tenants[e.tenant].host in HostsOf(hosts, az) {
        ZonesAreDisjoint(hosts, other, az, tenants[e.tenant].host);
      }
    }
  }

  lemma HandledExtends(tenants: seq<Tenant>, log: seq<Entry>, log': seq<Entry>, hosts: seq<Host>,
                       acted: seq<string>, az: string)
    requires HandledExactly(tenants, log, hosts, acted)
    requires forall e <- log' :: e.tenant < |tenants|
    requires forall t | 0 <= t < |tenants| ::
               InLog(log', t) <==> InLog(log, t) || tenants[t].host in HostsOf(hosts, az)
    ensures HandledExactly(tenants, log', hosts, acted + [az])
  {
    assert forall x :: x in acted + [az] <==> x in acted || x == az;
  }

  /** Every outage seen so far was acted on, or skipped because its zone cools down. */
  ghost predicate Dealt(outages: seq<Outage>, i: nat, azState: map<string, int>, now: int, forced: seq<string>,
                        acted: seq<string>, skipped: seq<string>, minutes: int) {
    i <= |outages| &&
    (forall az <- acted :: exists k :: 0 <= k < i && outages[k].az == az) &&
    (forall k | 0 <= k < i :: outages[k].az in acted ||
       (outages[k].az in skipped && outages[k].az !in forced && Cooling(azState, outages[k].az, now, minutes)))
  }

  lemma DealtExtends(outages: seq<Outage>, i: nat, azState: map<string, int>, now: int, forced: seq<string>,
                     acted: seq<string>, skipped: seq<string>, minutes: int)
    requires Dealt(outages, i, azState, now, forced, acted, skipped, minutes) && i < |outages|
    ensures Dealt(outages, i + 1, azState, now, forced, acted + [outages[i].az], skipped, minutes)
    ensures outages[i].az !in forced && Cooling(azState, outages[i].az, now, minutes) ==>
              Dealt(outages, i + 1, azState, now, forced, acted, skipped + [outages[i].az], minutes)
    ensures DistinctAzs(outages) ==> outages[i].az !in acted
  {
    assert forall x :: x in acted + [outages[i].az] <==> x in acted || x == outages[i].az;
  }

  predicate ActedOnOrCooling(az: string, azState: map<string, int>, now: int, forced: seq<string>,
                             acted: seq<string>, skipped: seq<string>, minutes: int) {
    az in acted ||
    (az in skipped && az !in forced && az in azState && now - azState[az] < minutes * 60)
  }

  lemma ZonesDealtWith(outages: seq<Outage>, hosts: seq<Host>, azState: map<string, int>, now: int,
                       forced: seq<string>, acted: seq<string>, skipped: seq<string>, minutes: int, threshold: int)
    requires Dealt(outages, |outages|, azState, now, forced, acted, skipped, minutes)
    requires Considered(outages, hosts, now, forced, threshold)
    ensures forall az | az in forced || Dark(hosts, az, now, threshold) ::
              ActedOnOrCooling(az, azState, now, forced, acted, skipped, minutes)
    ensures forall az <- acted :: az in forced || Dark(hosts, az, now, threshold)
  {
    forall az | az in forced || Dark(hosts, az, now, threshold)
      ensures ActedOnOrCooling(az, azState, now, forced, acted, skipped, minutes)
    {
      var o :| o in outages && o.az == az;
      var k :| 0 <= k < |outages| && outages[k] == o;
    }
    forall az | az in acted ensures az in forced || Dark(hosts, az, now, threshold) {
      var k :| 0 <= k < |outages| && outages[k].az == az;
      assert outages[k] in outages;
    }
  }

  /** The zones a run considers: detected ones, then forced ones. */
  ghost predicate Considered(outages: seq<Outage>, hosts: seq<Host>, now: int, forced: seq<string>, minutes: int) {
    DistinctAzs(outages) && (forall o <- outages :: o.hosts == HostsOf(hosts, o.az)) &&
    forall az :: (exists o <- outages :: o.az == az) <==> az in forced || Dark(hosts, az, now, minutes)
  }

  method ListOutages(hosts: seq<Host>, now: int, forced: seq<string>, minutes: int) returns (outages: seq<Outage>)
    requires forall i, j | 0 <= i < j < |forced| :: forced[i] != forced[j]
    ensures Considered(outages, hosts, now, forced, minutes)
  {
    var detected := DetectUnhealthyAzs(hosts, now, minutes);
    outages := AddForced(hosts, detected, forced);
    forall az
      ensures (exists o <- outages :: o.az == az) <==> az in forced || Dark(hosts, az, now, minutes)
    {
      assert (exists o <- outages :: o.az == az) <==> az in forced || exists o <- detected :: o.az == az;
      if o :| o in detected && o.az == az {
        assert Dark(hosts, o.az, now, minutes);
      }
    }
  }

  /** The loop over the outages. */
  method HandleOutages(batch: Batch, outages: seq<Outage>, forced: seq<string>, azState: map<string, int>,
                       enqueued: seq<Outcome>, recovered: seq<Outcome>)
    returns (acted: seq<string>, skipped: seq<string>, stamped: map<string, int>)
    requires batch.Valid() && batch.log == [] && |enqueued| == |recovered| == |batch.tenants|
    requires DistinctAzs(outages) && (forall o <- outages :: o.hosts == HostsOf(batch.scan, o.az))
    requires forall t | 0 <= t < |batch.tenants| ::
               enqueued[t] in {Queued, QueueFailed, Blocked} && recovered[t] in {Recovered, SyncFailed, Blocked}
    modifies batch
    ensures batch.Valid() && HandledExactly(batch.tenants, batch.log, batch.scan, acted)
    ensures Stamps(azState, stamped, batch.now, forced, acted, batch.st.cooldownMinutes)
    ensures Dealt(outages, |outages|, azState, batch.now, forced, acted, skipped, batch.st.cooldownMinutes)
  {
    acted, skipped, stamped := [], [], azState;
    var minutes := batch.st.cooldownMinutes;
    for i := 0 to |outages|
      invariant batch.Valid() && HandledExactly(batch.tenants, batch.log, batch.scan, acted)
      invariant Stamps(azState, stamped, batch.now, forced, acted, minutes)
      invariant Dealt(outages, i, azState, batch.now, forced, acted, skipped, minutes)
    {
      var o := outages[i];
      assert o in outages;
      DealtExtends(outages, i, azState, batch.now, forced, acted, skipped, minutes);
      if o.az !in forced && Cooling(stamped, o.az, batch.now, minutes) {
        skipped := skipped + [o.az];
      } else {
        StampsExtend(azState, stamped, batch.now, forced, acted, minutes, o.az);
        stamped := stamped[o.az := batch.now];
        NotHandledYet(batch.tenants, batch.log, batch.scan, acted, o.az);
        ghost var before := batch.log;
        batch.HandleOutage(o, enqueued, recovered);
        HandledExtends(batch.tenants, before, batch.log, batch.scan, acted, o.az);
        acted := acted + [o.az];
      }
    }
  }

  /** `_check_and_handle_az_failover`.  Every tenant on a host of a zone that is acted on is handled,
      once, and no other; the four counters add up to them; targets, bookings and launch numbers
      are as `Batch.Valid` says, with every detected and forced zone excluded.  A zone is acted on
      unless it cools down (forced zones never do) or no zone is healthy. */
  method CheckAndHandle(now: int, tenants: seq<Tenant>, forced: seq<string>, scan: seq<Host>,
                        azState: map<string, int>, st: Settings, enqueued: seq<Outcome>, recovered: seq<Outcome>)
    returns (batch: Batch, acted: seq<string>, skipped: seq<string>, stamped: map<string, int>)
    requires DistinctIds(scan) && |enqueued| == |recovered| == |tenants|
    requires forall i, j | 0 <= i < j < |forced| :: forced[i] != forced[j]
    requires forall t | 0 <= t < |tenants| ::
               enqueued[t] in {Queued, QueueFailed, Blocked} && recovered[t] in {Recovered, SyncFailed, Blocked}
    ensures fresh(batch) && batch.Valid() && batch.tenants == tenants && batch.st == st && batch.now == now
    ensures batch.scan == Present(scan) && HandledExactly(tenants, batch.log, Present(scan), acted)
    ensures forall az :: az in batch.exclude <==> Dark(Present(scan), az, now, st.thresholdMinutes) || az in forced
    ensures Stamps(azState, stamped, now, forced, acted, st.cooldownMinutes)
    ensures forall az <- acted :: az in batch.exclude
    ensures if ZoneAlive(scan, forced, now, st.thresholdMinutes)
            then forall az <- batch.exclude ::
                   ActedOnOrCooling(az, azState, now, forced, acted, skipped, st.cooldownMinutes)
            else acted == []
  {
    PresentKeepsDistinct(scan);
    ZoneAliveExactly(scan, forced, now, st.thresholdMinutes);
    var hosts := Present(scan);
    var outages := ListOutages(hosts, now, forced, st.thresholdMinutes);
    var exclude := (set o <- outages :: o.az) + (set az <- forced);
    assert forall az :: az in exclude <==> (exists o <- outages :: o.az == az) || az in forced;
    batch := new Batch(hosts, tenants, now, st, exclude);
    acted, skipped, stamped := [], [], azState;
    if SomeZoneHealthy(hosts, forced, now, st.thresholdMinutes) {
      acted, skipped, stamped := HandleOutages(batch, outages, forced, azState, enqueued, recovered);
      ZonesDealtWith(outages, hosts, azState, now, forced, acted, skipped, st.cooldownMinutes, st.thresholdMinutes);
    }
  }

  /** What `Batch.Valid` gives for the queue path: everything queued onto a host fits the vCPU and
      the VM count it had in the scan, and no target lies in an excluded zone. */
  lemma QueuedFitsTheScan(scan: seq<Host>, hosts: seq<Host>, log: seq<Entry>, summary: Summary, now: int,
                          st: Settings, exclude: set<string>, j: nat)
    requires Good(scan, hosts, log, summary, now, st, exclude) && j < |scan|
    requires exists e <- log :: e.outcome == Queued && e.host == scan[j].id
    ensures QueuedVcpu(log, scan[j].id) <= FreeVcpu(scan[j], st.cfg)
    ensures st.cfg.maxVms != 0 ==> scan[j].vmCount.GetOr(0) + Placed(log, scan[j].id) <= st.cfg.maxVms
  {
  }

  /** Memory is not booked in the snapshot: two tenants are queued onto one host as soon as its vCPU and
      VM count take both and its memory takes each alone, so the batch overruns the host's memory
      whenever they do not fit it together. */
  lemma MemoryIsNotBooked(h: Host, after1: seq<Host>, after2: seq<Host>, a: Tenant, b: Tenant, e1: Entry, e2: Entry,
                          now: int, st: Settings, exclude: set<string>)
    requires Placement([h], after1, a, e1, Queued, now, st, exclude)
    requires Placement(after1, after2, b, e2, Queued, now, st, exclude)
    requires h.az !in exclude && !Unhealthy(h, now, st.thresholdMinutes)
    requires WantedVcpu(a) + WantedVcpu(b) <= FreeVcpu(h, st.cfg) && WantedVcpu(b) >= 0
    requires WantedMem(a) <= FreeMem(h, st.cfg) && WantedMem(b) <= FreeMem(h, st.cfg)
    requires st.cfg.maxVms != 0 ==> h.vmCount.GetOr(0) + 1 < st.cfg.maxVms
    ensures e1.outcome == e2.outcome == Queued && e1.host == e2.host == h.id
  {
    assert h in [h];
    assert Admissible(h, now, st, exclude, WantedVcpu(a), WantedMem(a));
    var h1 := RowAfter(h, e1);
    assert after1 == [h1] && h1 in after1;
    assert Admissible(h1, now, st, exclude, WantedVcpu(b), WantedMem(b));
  }

  /** It does happen: two tenants of 8192 MB handed to a host with 8192 MB. */
  method OverrunMemory() returns (batch: Batch)
    ensures fresh(batch) && batch.Valid() && |batch.log| == 2
    ensures forall e <- batch.log :: e.outcome == Queued && e.host == batch.scan[0].id
    ensures |batch.scan| == 1 && |batch.tenants| == 2
    ensures WantedMem(batch.tenants[0]) + WantedMem(batch.tenants[1]) > FreeMem(batch.scan[0], batch.st.cfg)
  {
    var h := Host("i-1", Active, "a", Some("10.0.0.1"), Some(8), Some(8192), Some(0), Some(0), Some(0), Some(1),
                  None, Some(0));
    var st := Settings(Config(1.0, 1.0, 0), 10, 60, true);
    assert Allocatable(8, 1.0) == 8 && Allocatable(8192, 1.0) == 8192;
    batch := new Batch([h], [Tenant("t-1", "i-9", 2, 8192), Tenant("t-2", "i-9", 2, 8192)], 0, st, {});
    batch.HandleTenant(0, Queued, SyncFailed);
    ghost var after1, e1 := batch.hosts, batch.log[0];
    assert Placement([h], after1, batch.tenants[0], e1, Queued, 0, st, {}) && batch.log == [e1];
    batch.HandleTenant(1, Queued, SyncFailed);
    ghost var e2 := batch.log[1];
    assert batch.log == [e1, e2];
    MemoryIsNotBooked(h, after1, batch.hosts, batch.tenants[0], batch.tenants[1], e1, e2, 0, st, {});
  }

  // ---- Cooldown over runs ----

  datatype Tick = Tick(now: int, forced: seq<string>, acted: seq<string>)

  /** A sequence of detector runs, each reading the record the previous one wrote. */
  ghost predicate Ticks(ticks: seq<Tick>, records: seq<map<string, int>>, minutes: int) {
    |records| == |ticks| + 1 &&
    (forall i, j | 0 <= i < j < |ticks| :: ticks[i].now <= ticks[j].now) &&
    forall i | 0 <= i < |ticks| ::
      Stamps(records[i], records[i + 1], ticks[i].now, ticks[i].forced, ticks[i].acted, minutes)
  }

  /** A zone once acted on keeps a stamp at least that recent, whatever is done to other zones. */
  lemma {:induction false} StampsAreKept(ticks: seq<Tick>, records: seq<map<string, int>>, minutes: int,
                                         i: nat, j: nat, az: string)
    requires Ticks(ticks, records, minutes) && i < j <= |ticks| && az in ticks[i].acted
    ensures az in records[j] && records[j][az] >= ticks[i].now
  {
    if j > i + 1 {
      StampsAreKept(ticks, records, minutes, i, j - 1, az);
    }
  }

  /** An automatic action on a zone comes at least the cooldown after any earlier action on it,
      automatic or forced. */
  lemma CooldownHolds(ticks: seq<Tick>, records: seq<map<string, int>>, minutes: int, i: nat, j: nat, az: string)
    requires Ticks(ticks, records, minutes) && i < j < |ticks|
    requires az in ticks[i].acted && az in ticks[j].acted && az !in ticks[j].forced
    ensures ticks[j].now - ticks[i].now >= minutes * 60
  {
    StampsAreKept(ticks, records, minutes, i, j, az);
    assert Stamps(records[j], records[j + 1], ticks[j].now, ticks[j].forced, ticks[j].acted, minutes);
    assert !Cooling(records[j], az, ticks[j].now, minutes);
  }

  /** The record is put as a whole, yet no run loses a stamp: a zone not acted on keeps its own. */
  lemma {:induction false} OtherStampsSurvive(ticks: seq<Tick>, records: seq<map<string, int>>, minutes: int,
                                              j: nat, az: string)
    requires Ticks(ticks, records, minutes) && j <= |ticks| && az in records[0]
    requires forall i | 0 <= i < j :: az !in ticks[i].acted
    ensures az in records[j] && records[j][az] == records[0][az]
  {
    if j > 0 {
      OtherStampsSurvive(ticks, records, minutes, j - 1, az);
    }
  }
}
