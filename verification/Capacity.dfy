/** Host capacity arithmetic and the ordering of placement candidates. */
module Capacity {
  import opened Tables
  import HostRows
  import Text

  function FreeVcpu(h: Host, cfg: Config): int {
    Allocatable(h.totalVcpu.GetOr(0), cfg.cpuRatio) - h.usedVcpu.GetOr(0)
  }

  function FreeMem(h: Host, cfg: Config): int {
    Allocatable(h.totalMem.GetOr(0), cfg.memRatio) - h.usedMem.GetOr(0)
  }

  predicate HostFits(h: Host, vcpu: int, mem: int, cfg: Config) {
    FreeVcpu(h, cfg) >= vcpu && FreeMem(h, cfg) >= mem &&
    (cfg.maxVms != 0 ==> h.vmCount.GetOr(0) < cfg.maxVms)
  }

  /** What may be booked is the product of total and ratio, rounded down. */
  lemma AllocatableIsFloor(total: int, ratio: real)
    requires total >= 0 && ratio >= 0.0
    ensures Allocatable(total, ratio) as real <= total as real * ratio < (Allocatable(total, ratio) + 1) as real
  {
    assert total as real * ratio >= 0.0;
  }

  /** The scheduler's verdict and the atomic reservation agree on a row exactly when the row
      carries every counter: `host_fits` reads a missing counter as 0, a conditional write
      refuses it. */
  lemma ReservableIffFitsAndPublished(h: Host, vcpu: int, mem: int, cfg: Config)
    ensures HostRows.Reserve(h, h, vcpu, mem, cfg).Booked? <==>
            HostFits(h, vcpu, mem, cfg) && Published(h)
  {
  }

  /** A row the scheduler accepts and the reservation refuses. */
  lemma FitsButRefused()
    ensures var cfg := Config(1.0, 1.0, 0);
            var h := BareHost("i-1").(totalVcpu := Some(8), totalMem := Some(8192));
            HostFits(h, 2, 4096, cfg) && HostRows.Reserve(h, h, 2, 4096, cfg).Refused?
  {
    assert Allocatable(8, 1.0) == 8 && Allocatable(8192, 1.0) == 8192;
  }

  // ---- Ranking ----

  /** The sort key (-free_vcpu, -free_mem, instance_id), strictly. */
  predicate Before(a: Host, b: Host, cfg: Config) {
    FreeVcpu(a, cfg) > FreeVcpu(b, cfg) ||
    (FreeVcpu(a, cfg) == FreeVcpu(b, cfg) &&
     (FreeMem(a, cfg) > FreeMem(b, cfg) ||
      (FreeMem(a, cfg) == FreeMem(b, cfg) && Text.Less(a.id, b.id))))
  }

  ghost predicate Ranked(hs: seq<Host>, cfg: Config) {
    forall i, j | 0 <= i < j < |hs| :: Before(hs[i], hs[j], cfg)
  }

  /** `instance_id` is the partition key. */
  ghost predicate DistinctIds(hs: seq<Host>) {
    forall i, j | 0 <= i < j < |hs| :: hs[i].id != hs[j].id
  }

  predicate Eligible(h: Host, vcpu: int, mem: int, cfg: Config, exclude: set<HostId>) {
    h.id !in exclude && HostFits(h, vcpu, mem, cfg)
  }

  ghost predicate IsRanking(ranked: seq<Host>, hosts: seq<Host>, vcpu: int, mem: int, cfg: Config,
                            exclude: set<HostId>) {
    Ranked(ranked, cfg) &&
    forall h :: h in ranked <==> h in hosts && Eligible(h, vcpu, mem, cfg, exclude)
  }

  lemma BeforeIsTotal(a: Host, b: Host, cfg: Config)
    requires a.id != b.id
    ensures Before(a, b, cfg) != Before(b, a, cfg)
  {
    Text.LessIsTotal(a.id, b.id);
  }

  lemma BeforeIsTransitive(a: Host, b: Host, c: Host, cfg: Config)
    requires Before(a, b, cfg) && Before(b, c, cfg)
    ensures Before(a, c, cfg)
  {
    if Text.Less(a.id, b.id) && Text.Less(b.id, c.id) {
      Text.LessIsTransitive(a.id, b.id, c.id);
    }
  }

  /** Insertion into a ranked list, the step of the sort. */
  function Insert(h: Host, ranked: seq<Host>, cfg: Config): (r: seq<Host>)
    ensures multiset(r) == multiset(ranked) + multiset{h}
  {
    if ranked == [] then [h]
    else if Before(h, ranked[0], cfg) then
      assert ranked == [ranked[0]] + ranked[1..]; [h] + ranked
    else
      assert ranked == [ranked[0]] + ranked[1..];
      [ranked[0]] + Insert(h, ranked[1..], cfg)
  }

  lemma {:induction false} InsertKeepsRanked(h: Host, ranked: seq<Host>, cfg: Config)
    requires Ranked(ranked, cfg) && forall g <- ranked :: g.id != h.id
    ensures Ranked(Insert(h, ranked, cfg), cfg)
  {
    if ranked == [] {
    } else if Before(h, ranked[0], cfg) {
      forall k | 0 < k < |ranked| ensures Before(h, ranked[k], cfg) {
        BeforeIsTransitive(h, ranked[0], ranked[k], cfg);
      }
    } else {
      BeforeIsTotal(h, ranked[0], cfg);
      InsertKeepsRanked(h, ranked[1..], cfg);
      var rest := Insert(h, ranked[1..], cfg);
      forall g | g in rest ensures Before(ranked[0], g, cfg) {
        assert g in multiset(rest);
        if g != h {
          assert g in ranked[1..];
        }
      }
    }
  }

  /** `ranked.sort(key=...)` */
  method SortRanked(hs: seq<Host>, cfg: Config) returns (sorted: seq<Host>)
    requires DistinctIds(hs)
    ensures multiset(sorted) == multiset(hs) && Ranked(sorted, cfg)
  {
    sorted := [];
    for i := 0 to |hs|
      invariant multiset(sorted) == multiset(hs[..i]) && Ranked(sorted, cfg)
    {
      forall g | g in sorted ensures g.id != hs[i].id {
        assert g in multiset(sorted);
        assert g in hs[..i];
      }
      InsertKeepsRanked(hs[i], sorted, cfg);
      sorted := Insert(hs[i], sorted, cfg);
      assert hs[..i + 1] == hs[..i] + [hs[i]];
    }
    assert hs[..|hs|] == hs;
  }

  /** `rank_hosts` */
  method RankHosts(hosts: seq<Host>, vcpu: int, mem: int, cfg: Config, exclude: set<HostId>)
    returns (ranked: seq<Host>)
    requires DistinctIds(hosts)
    ensures IsRanking(ranked, hosts, vcpu, mem, cfg, exclude)
    ensures forall i, j | 0 <= i < j < |ranked| ::
              FreeVcpu(ranked[i], cfg) > FreeVcpu(ranked[j], cfg) ||
              (FreeVcpu(ranked[i], cfg) == FreeVcpu(ranked[j], cfg) &&
               (FreeMem(ranked[i], cfg) > FreeMem(ranked[j], cfg) ||
                (FreeMem(ranked[i], cfg) == FreeMem(ranked[j], cfg) && Text.Less(ranked[i].id, ranked[j].id))))
  {
    var fitting := [];
    for i := 0 to |hosts|
      invariant forall h :: h in fitting <==> h in hosts[..i] && Eligible(h, vcpu, mem, cfg, exclude)
      invariant DistinctIds(fitting)
    {
      if hosts[i].id !in exclude && HostFits(hosts[i], vcpu, mem, cfg) {
        forall g | g in fitting ensures g.id != hosts[i].id {
          assert g in hosts[..i];
        }
        fitting := fitting + [hosts[i]];
      }
    }
    ranked := SortRanked(fitting, cfg);
    forall h ensures h in ranked <==> h in fitting {
      assert h in ranked <==> h in multiset(ranked);
    }
  }

  /** A ranking is determined by the set of hosts: scan order does not matter. */
  lemma {:induction false} RankingIsUnique(a: seq<Host>, b: seq<Host>, cfg: Config)
    requires Ranked(a, cfg) && Ranked(b, cfg) && (forall h :: h in a <==> h in b)
    ensures a == b
  {
    assert (a != [] ==> a[0] in a) && (b != [] ==> b[0] in b);
    if a != [] && b != [] {
      forall x, y | Before(x, y, cfg) ensures !Before(y, x, cfg) && x != y {
        Text.LessIsTotal(x.id, y.id);
      }
      assert a[0] == b[0];
      forall h ensures h in a[1..] <==> h in b[1..] {
        assert h in a[1..] <==> h in a && h != a[0];
        assert h in b[1..] <==> h in b && h != b[0];
      }
      RankingIsUnique(a[1..], b[1..], cfg);
    }
  }

  /** `rank_hosts` gives the same list for every permutation of the scan. */
  lemma RankingIgnoresScanOrder(r1: seq<Host>, r2: seq<Host>, scan1: seq<Host>, scan2: seq<Host>,
                                vcpu: int, mem: int, cfg: Config, exclude: set<HostId>)
    requires multiset(scan1) == multiset(scan2)
    requires IsRanking(r1, scan1, vcpu, mem, cfg, exclude) && IsRanking(r2, scan2, vcpu, mem, cfg, exclude)
    ensures r1 == r2
  {
    forall h ensures h in scan1 <==> h in scan2 {
      assert h in scan1 <==> h in multiset(scan1);
      assert h in scan2 <==> h in multiset(scan2);
    }
    RankingIsUnique(r1, r2, cfg);
  }

  // ---- Candidates of a create ----

  predicate Schedulable(h: Host) {
    h.status == Active || h.status == Idle
  }

  function Scheduled(hosts: seq<Host>): (r: seq<Host>)
    ensures forall h :: h in r <==> h in hosts && Schedulable(h)
  {
    if hosts == [] then []
    else
      assert hosts == [hosts[0]] + hosts[1..];
      (if Schedulable(hosts[0]) then [hosts[0]] else []) + Scheduled(hosts[1..])
  }

  lemma {:induction false} ScheduledKeepsDistinct(hosts: seq<Host>)
    requires DistinctIds(hosts)
    ensures DistinctIds(Scheduled(hosts))
  {
    if hosts != [] {
      ScheduledKeepsDistinct(hosts[1..]);
      var rest := Scheduled(hosts[1..]);
      forall k | 0 <= k < |rest| ensures rest[k].id != hosts[0].id {
        assert rest[k] in hosts[1..];
      }
    }
  }

  ghost predicate Shuffles(shuffle: seq<Host> -> seq<Host>) {
    forall hs :: multiset(shuffle(hs)) == multiset(hs)
  }

  /** How many of the least loaded hosts a create chooses between. */
  function HeadSize(topK: int, n: nat): nat {
    var k := if topK < 1 then 1 else topK;
    if k < n then k else n
  }

  /** What `_pick_hosts_for_create` returns for some outcome of the shuffle. */
  ghost predicate IsPick(picks: seq<Host>, hosts: seq<Host>, vcpu: int, mem: int, cfg: Config, topK: int) {
    exists ranked ::
      IsRanking(ranked, Scheduled(hosts), vcpu, mem, cfg, {}) &&
      |picks| == |ranked| &&
      var n := HeadSize(topK, |ranked|);
      multiset(picks[..n]) == multiset(ranked[..n]) && picks[n..] == ranked[n..]
  }

  method PickHostsForCreate(hosts: seq<Host>, vcpu: int, mem: int, cfg: Config, topK: int,
                            shuffle: seq<Host> -> seq<Host>) returns (picks: seq<Host>)
    requires DistinctIds(hosts) && Shuffles(shuffle)
    ensures IsPick(picks, hosts, vcpu, mem, cfg, topK)
  {
    ScheduledKeepsDistinct(hosts);
    var ranked := RankHosts(Scheduled(hosts), vcpu, mem, cfg, {});
    var n := HeadSize(topK, |ranked|);
    var head := shuffle(ranked[..n]);
    assert |multiset(head)| == |multiset(ranked[..n])|;
    picks := head + ranked[n..];
    assert picks[..n] == head && picks[n..] == ranked[n..];
  }

  lemma HeadsAgree(a: seq<Host>, b: seq<Host>, n: nat)
    requires n <= |a| == |b| && multiset(a[..n]) == multiset(b[..n]) && a[n..] == b[n..]
    ensures forall h :: h in a[..n] <==> h in b[..n]
    ensures forall h :: h in a <==> h in b
  {
    assert a == a[..n] + a[n..] && b == b[..n] + b[n..];
    forall h ensures h in a[..n] <==> h in b[..n] {
      assert h in a[..n] <==> h in multiset(a[..n]);
      assert h in b[..n] <==> h in multiset(b[..n]);
    }
  }

  /** Every host a create may try is schedulable and fitted when it was scanned; beyond the first
      max(1, K), every host is less free than all of those before that limit. */
  lemma PicksFitAndTailIsWorse(picks: seq<Host>, hosts: seq<Host>, vcpu: int, mem: int, cfg: Config, topK: int)
    requires IsPick(picks, hosts, vcpu, mem, cfg, topK)
    ensures forall h :: h in picks <==> h in hosts && Schedulable(h) && HostFits(h, vcpu, mem, cfg)
    ensures forall h <- picks :: h.status == Active || h.status == Idle
    ensures forall i, j | 0 <= i < j < |picks| && (i < 1 || i < topK) && 1 <= j && topK <= j ::
              FreeVcpu(picks[i], cfg) > FreeVcpu(picks[j], cfg) ||
              (FreeVcpu(picks[i], cfg) == FreeVcpu(picks[j], cfg) &&
               (FreeMem(picks[i], cfg) > FreeMem(picks[j], cfg) ||
                (FreeMem(picks[i], cfg) == FreeMem(picks[j], cfg) && Text.Less(picks[i].id, picks[j].id))))
  {
    var ranked :|
      IsRanking(ranked, Scheduled(hosts), vcpu, mem, cfg, {}) &&
      |picks| == |ranked| &&
      var n := HeadSize(topK, |ranked|);
      multiset(picks[..n]) == multiset(ranked[..n]) && picks[n..] == ranked[n..];
    var n := HeadSize(topK, |ranked|);
    HeadsAgree(picks, ranked, n);
    forall i, j | 0 <= i < n <= j < |picks| ensures Before(picks[i], picks[j], cfg) {
      assert picks[i] in picks[..n] && picks[i] in ranked[..n];
      var k :| 0 <= k < n && ranked[k] == picks[i];
      assert picks[j] == picks[n..][j - n] == ranked[n..][j - n] == ranked[j];
    }
  }
}
