/** Routing of `/vm/<tid>` requests: per-tenant listener rules in front of one catch-all rule, and
    on the hosts a peer map as a second hop.  Purges, rebuilds and repoints move tenants between
    the two mechanisms at any time. */
module Routing {
  import opened Tables
  import Text

  // ---- Paths, patterns and the code's string tests ----

  const VM := "/vm/"

  /** Tenant ids are DNS labels with a hexadecimal suffix. */
  predicate ValidId(t: TenantId) {
    t != "" && '/' !in t && '*' !in t
  }

  function Exact(t: TenantId): string { VM + t }
  function Below(t: TenantId): string { VM + t + "/*" }
  function PatternsOf(t: TenantId): seq<string> { [Exact(t), Below(t)] }

  const CATCH_ALL := "/vm/*"

  /** A path pattern of the load balancer; the system only uses a trailing `*`. */
  predicate Matches(pattern: string, path: string) {
    if pattern != "" && pattern[|pattern| - 1] == '*'
    then pattern[..|pattern| - 1] <= path
    else pattern == path
  }

  /** The nginx location `^/vm/<t>(/.*)?$`. */
  predicate LocationOf(t: TenantId, path: string) {
    path == VM + t || VM + t + "/" <= path
  }

  function UpTo(s: string, c: char): string {
    if s == "" || s[0] == c then "" else [s[0]] + UpTo(s[1..], c)
  }

  /** `v.split("/vm/", 1)[1].split("/", 1)[0]`; `None` when the split has no second part. */
  function TidIn(v: string): Option<string> {
    if VM <= v then Some(UpTo(v[4..], '/'))
    else if v == "" then None
    else TidIn(v[1..])
  }

  lemma {:induction false} UpToSlash(t: string, rest: string)
    requires '/' !in t && (rest == "" || rest[0] == '/')
    ensures UpTo(t + rest, '/') == t
  {
    if t != "" {
      assert (t + rest)[1..] == t[1..] + rest;
      UpToSlash(t[1..], rest);
      assert [t[0]] + t[1..] == t;
    } else {
      assert t + rest == rest;
    }
  }

  /** The code recovers exactly the tenant a per-tenant pattern was made for. */
  lemma TidOfPatterns(t: TenantId)
    requires ValidId(t)
    ensures TidIn(Exact(t)) == Some(t) && TidIn(Below(t)) == Some(t)
  {
    UpToSlash(t, "");
    UpToSlash(t, "/*");
    assert Exact(t)[4..] == t + "" && Below(t)[4..] == t + "/*";
  }

  /** A request path belongs to one tenant at most. */
  lemma LocationIsUnique(t: TenantId, u: TenantId, path: string)
    requires ValidId(t) && ValidId(u) && LocationOf(t, path) && LocationOf(u, path)
    ensures t == u
  {
    SegmentIsTid(t, path);
    SegmentIsTid(u, path);
  }

  lemma SegmentIsTid(t: TenantId, path: string)
    requires ValidId(t) && LocationOf(t, path)
    ensures 4 <= |path| && UpTo(path[4..], '/') == t
  {
    var rest := path[4 + |t|..];
    assert path[4..] == t + rest;
    UpToSlash(t, rest);
  }

  /** The listener's two patterns of a tenant and the hosts' location agree on every path. */
  lemma PatternsAgreeWithLocation(t: TenantId, path: string)
    requires ValidId(t)
    ensures Matches(Exact(t), path) || Matches(Below(t), path) <==> LocationOf(t, path)
    ensures LocationOf(t, path) ==> Matches(CATCH_ALL, path)
  {
    assert Exact(t)[|Exact(t)| - 1] == t[|t| - 1] && t[|t| - 1] in t;
    assert Below(t)[..|Below(t)| - 1] == VM + t + "/";
  }

  /** The substring test by which rules are looked up (`"/vm/<t>" in value`) hits the rule of `u`
      exactly when `t` is a prefix of `u`. */
  lemma LookupHitsIffPrefix(t: TenantId, u: TenantId)
    requires ValidId(t) && ValidId(u)
    ensures Text.Contains(Exact(u), VM + t) <==> t <= u
    ensures Text.Contains(Below(u), VM + t) <==> t <= u
    ensures !Text.Contains(CATCH_ALL, VM + t)
  {
    if t <= u {
      assert VM + t <= Exact(u)[0..] && VM + t <= Below(u)[0..];
    }
    assert Below(u)[4 + |u|] == '/';
    assert |u| < |t| ==> (VM + t)[4 + |u|] == t[|u|] && t[|u|] in t;
    forall i | 0 <= i <= |Below(u)| && VM + t <= Below(u)[i..] ensures i == 0 && t <= u {
      assert Below(u)[i] == (VM + t)[0] && Below(u)[i + 1] == (VM + t)[1] && Below(u)[i + 3] == (VM + t)[3];
      assert Below(u)[i + 4] == (VM + t)[4] == t[0] && t[0] in t;
      assert forall k | 4 <= k < 4 + |u| :: Below(u)[k] == u[k - 4] && u[k - 4] in u;
      assert i == 0;
      forall k | 0 <= k < |t| ensures t[k] == u[k] {
        assert (VM + t)[4 + k] == Below(u)[4 + k];
      }
      assert t == u[..|t|];
    }
    forall i | 0 <= i <= |Exact(u)| && VM + t <= Exact(u)[i..] ensures VM + t <= Below(u)[i..] {
      assert Below(u)[i..] == Exact(u)[i..] + "/*";
    }
    assert |VM + t| >= 5 && (VM + t)[4] == t[0] && t[0] in t && CATCH_ALL[4] == '*';
    assert forall i | 0 <= i <= |CATCH_ALL| :: !(VM + t <= CATCH_ALL[i..]);
  }

  // ---- The listener ----

  /** `action` is the target group: the hosts it may forward to. */
  datatype Rule = Rule(priority: int, values: seq<string>, action: set<HostId>)

  const FLOOR := 10
  const CEILING := 499
  const CATCH_ALL_PRIORITY := 999

  predicate PerTenant(r: Rule, t: TenantId) {
    ValidId(t) && r.values == PatternsOf(t)
  }

  /** The rules a listener can have: the catch-all to the whole fleet, and rules of tenants. */
  ghost predicate ListenerOk(rules: seq<Rule>, fleet: set<HostId>) {
    Rule(CATCH_ALL_PRIORITY, [CATCH_ALL], fleet) in rules &&
    (forall r <- rules :: r == Rule(CATCH_ALL_PRIORITY, [CATCH_ALL], fleet) ||
       (FLOOR <= r.priority <= CEILING && r.action <= fleet && r.action != {} && exists t :: PerTenant(r, t))) &&
    (forall i, j | 0 <= i < j < |rules| :: rules[i].priority != rules[j].priority)
  }

  predicate Hits(r: Rule, path: string) {
    exists v <- r.values :: Matches(v, path)
  }

  /** The load balancer forwards by the matching rule of lowest priority. */
  ghost predicate Routes(rules: seq<Rule>, path: string, r: Rule) {
    r in rules && Hits(r, path) && forall q <- rules | Hits(q, path) :: r.priority <= q.priority
  }

  predicate LooksUp(r: Rule, t: TenantId) {
    exists v <- r.values :: Text.Contains(v, VM + t)
  }

  /** The tenants the purge reads off a rule, the catch-all's own pattern aside. */
  function TidsOf(r: Rule): set<string> {
    set v <- r.values | v != CATCH_ALL && TidIn(v).Some? :: TidIn(v).value
  }

  lemma PerTenantFacts(r: Rule, t: TenantId)
    requires PerTenant(r, t)
    ensures TidsOf(r) == {t}
    ensures forall path :: Hits(r, path) <==> LocationOf(t, path)
    ensures forall u | ValidId(u) :: LooksUp(r, u) <==> u <= t
  {
    TidOfPatterns(t);
    assert Exact(t) in r.values && Below(t) in r.values;
    assert Exact(t) != CATCH_ALL && Below(t) != CATCH_ALL by {
      assert t[0] in t && Exact(t)[4] == t[0] && Below(t)[4] == t[0];
    }
    forall path ensures Hits(r, path) <==> LocationOf(t, path) {
      PatternsAgreeWithLocation(t, path);
    }
    forall u | ValidId(u) ensures LooksUp(r, u) <==> u <= t {
      LookupHitsIffPrefix(u, t);
    }
  }

  lemma CatchAllFacts(fleet: set<HostId>)
    ensures var r := Rule(CATCH_ALL_PRIORITY, [CATCH_ALL], fleet);
            TidsOf(r) == {} && (forall u | ValidId(u) :: !LooksUp(r, u))
  {
    forall u | ValidId(u) ensures !Text.Contains(CATCH_ALL, VM + u) {
      LookupHitsIffPrefix(u, u);
    }
  }

  /** Which request goes where: to the tenant's own rule if there is one, else to the catch-all;
      never nowhere, and never by another tenant's rule. */
  lemma RequestsFindTheirRule(rules: seq<Rule>, fleet: set<HostId>, t: TenantId, path: string)
    requires ListenerOk(rules, fleet) && ValidId(t) && LocationOf(t, path)
    ensures exists r :: Routes(rules, path, r)
    ensures forall r | Routes(rules, path, r) ::
              r.action <= fleet &&
              (if exists q <- rules :: PerTenant(q, t) then PerTenant(r, t) else r.priority == CATCH_ALL_PRIORITY)
  {
    PatternsAgreeWithLocation(t, path);
    var all := Rule(CATCH_ALL_PRIORITY, [CATCH_ALL], fleet);
    assert Hits(all, path) by { assert CATCH_ALL in all.values; }
    var best := LowestHit(rules, path, all);
    assert Routes(rules, path, best);
    forall q | q in rules && Hits(q, path) && q != all ensures PerTenant(q, t) {
      var u :| PerTenant(q, u);
      PerTenantFacts(q, u);
      LocationIsUnique(t, u, path);
    }
    forall q | q in rules && PerTenant(q, t) ensures Hits(q, path) && q != all {
      PerTenantFacts(q, t);
      CatchAllFacts(fleet);
    }
  }

  lemma {:induction false} LowestHit(rules: seq<Rule>, path: string, seed: Rule) returns (best: Rule)
    requires seed in rules && Hits(seed, path)
    ensures Routes(rules, path, best)
  {
    var i := 0;
    best := seed;
    while i < |rules|
      invariant 0 <= i <= |rules| && best in rules && Hits(best, path)
      invariant forall k | 0 <= k < i && Hits(rules[k], path) :: best.priority <= rules[k].priority
    {
      if Hits(rules[i], path) && rules[i].priority < best.priority {
        best := rules[i];
      }
      i := i + 1;
    }
  }

  // ---- Operations on the listener ----

  predicate Free(rules: seq<Rule>, p: int) {
    FLOOR <= p <= CEILING && forall r <- rules :: r.priority != p
  }

  /** How the search for a random free priority ends: with one; with six attempts lost to other
      actors; or with an exception, because no priority is free or the call is refused. */
  datatype Pick = At(priority: int) | Contended | Raises

  predicate PickOk(rules: seq<Rule>, pick: Pick) {
    pick.At? ==> Free(rules, pick.priority)
  }

  function Purged(rules: seq<Rule>, only: Option<set<string>>, failed: set<int>): seq<Rule> {
    if rules == [] then []
    else (if Doomed(rules[0], only, failed) then [] else [rules[0]]) + Purged(rules[1..], only, failed)
  }

  predicate Doomed(r: Rule, only: Option<set<string>>, failed: set<int>) {
    TidsOf(r) != {} && (only.Some? ==> TidsOf(r) * only.value != {}) && r.priority !in failed
  }

  ghost predicate FirstHit(rules: seq<Rule>, t: TenantId, i: int) {
    0 <= i < |rules| && LooksUp(rules[i], t) && forall k | 0 <= k < i :: !LooksUp(rules[k], t)
  }

  /** The loop of the purge: a rule survives unless it is doomed. */
  method Filter(rules: seq<Rule>, only: Option<set<string>>, failed: set<int>) returns (kept: seq<Rule>)
    ensures kept == Purged(rules, only, failed)
  {
    kept := [];
    for i := 0 to |rules|
      invariant kept + Purged(rules[i..], only, failed) == Purged(rules, only, failed)
    {
      ghost var rest := Purged(rules[i + 1..], only, failed);
      assert rules[i..][0] == rules[i] && rules[i..][1..] == rules[i + 1..];
      assert Purged(rules[i..], only, failed) == (if Doomed(rules[i], only, failed) then [] else [rules[i]]) + rest;
      assert kept + ([rules[i]] + rest) == kept + [rules[i]] + rest && [] + rest == rest;
      var tids := TidsOf(rules[i]);
      if tids == {} || (only.Some? && tids * only.value == {}) || rules[i].priority in failed {
        kept := kept + [rules[i]];
      }
    }
  }

  /** A rule for `t`, unless the lookup believes there is one. */
  function Added(rules: seq<Rule>, t: TenantId, host: HostId, pick: Pick): seq<Rule> {
    if (exists r <- rules :: LooksUp(r, t)) || !pick.At? then rules
    else rules + [Rule(pick.priority, PatternsOf(t), {host})]
  }

  class Listener {
    var rules: seq<Rule>
    const fleet: set<HostId>

    constructor (fleet: set<HostId>)
      ensures this.fleet == fleet && rules == [Rule(CATCH_ALL_PRIORITY, [CATCH_ALL], fleet)] && Valid()
    {
      this.fleet := fleet;
      rules := [Rule(CATCH_ALL_PRIORITY, [CATCH_ALL], fleet)];
    }

    ghost predicate Valid()
      reads this
    {
      ListenerOk(rules, fleet)
    }

    /** `_add_alb_rule`: an exhausted window, a refusal and six lost attempts all raise. */
    method AddAlbRule(t: TenantId, host: HostId, pick: Pick) returns (ok: bool)
      requires Valid() && ValidId(t) && host in fleet && PickOk(rules, pick)
      modifies this`rules
      ensures Valid()
      ensures ok <==> pick.At? || exists r <- old(rules) :: LooksUp(r, t)
      ensures rules == Added(old(rules), t, host, pick)
    {
      if exists r <- rules :: LooksUp(r, t) {
        return true;
      }
      if !pick.At? {
        return false;
      }
      rules := rules + [Rule(pick.priority, PatternsOf(t), {host})];
      assert PerTenant(rules[|rules| - 1], t);
      ok := true;
    }

    /** `_repoint_alb_rule`: rewrites the first rule the lookup hits, whoever's it is.  Without a hit it
        makes a rule, and returns normally even when every attempt was lost: then the caller's
        repoint gate passes although there is no rule. */
    method RepointAlbRule(t: TenantId, host: HostId, pick: Pick) returns (ok: bool)
      requires Valid() && ValidId(t) && host in fleet && PickOk(rules, pick)
      modifies this`rules
      ensures Valid()
      ensures ok <==> !pick.Raises? || exists r <- old(rules) :: LooksUp(r, t)
      ensures (forall r <- old(rules) :: !LooksUp(r, t)) ==> rules == Added(old(rules), t, host, pick)
      ensures (exists r <- old(rules) :: LooksUp(r, t)) ==>
                exists i :: FirstHit(old(rules), t, i) && rules == old(rules)[i := old(rules)[i].(action := {host})]
      ensures ok && rules == old(rules) && (forall r <- old(rules) :: !LooksUp(r, t)) <==>
                pick.Contended? && forall r <- old(rules) :: !LooksUp(r, t)
    {
      for i := 0 to |rules|
        invariant forall k | 0 <= k < i :: !LooksUp(rules[k], t)
        invariant rules == old(rules)
      {
        if LooksUp(rules[i], t) {
          CatchAllFacts(fleet);
          assert rules[i] in rules && rules[i].priority != CATCH_ALL_PRIORITY;
          rules := rules[i := rules[i].(action := {host})];
          KeepsListener(old(rules), i, host, fleet, t);
          return true;
        }
      }
      match pick {
        case At(_) => ok := AddAlbRule(t, host, pick);
        case Contended => ok := true;
        case Raises => ok := false;
      }
    }

    /** `purge_per_tenant_routing` (not a dry run).  An empty list means no restriction; `failed` are
        the priorities whose deletion was refused. */
    method PurgePerTenant(tenantIds: Option<seq<string>>, failed: set<int>)
      requires Valid()
      modifies this`rules
      ensures Valid()
      ensures rules == Purged(old(rules), if tenantIds.GetOr([]) == [] then None
                                          else Some(set t <- tenantIds.value), failed)
    {
      var only := if tenantIds.GetOr([]) == [] then None else Some(set t <- tenantIds.value);
      var kept := Filter(rules, only, failed);
      PurgeKeepsListener(rules, only, failed, fleet);
      rules := kept;
    }
  }

  lemma KeepsListener(rules: seq<Rule>, i: nat, host: HostId, fleet: set<HostId>, t: TenantId)
    requires ListenerOk(rules, fleet) && i < |rules| && host in fleet && ValidId(t) && LooksUp(rules[i], t)
    ensures ListenerOk(rules[i := rules[i].(action := {host})], fleet)
  {
    var after := rules[i := rules[i].(action := {host})];
    var all := Rule(CATCH_ALL_PRIORITY, [CATCH_ALL], fleet);
    CatchAllFacts(fleet);
    var k :| 0 <= k < |rules| && rules[k] == all;
    assert after[k] == all;
    assert rules[i] in rules;
    var u :| PerTenant(rules[i], u);
    assert PerTenant(after[i], u);
    forall r | r in after ensures r == all || (FLOOR <= r.priority <= CEILING && r.action <= fleet && r.action != {} &&
                                               exists v :: PerTenant(r, v)) {
      assert r == after[i] || r in rules;
    }
  }

  lemma {:induction false} PurgedIsFilter(rules: seq<Rule>, only: Option<set<string>>, failed: set<int>)
    requires forall i, j | 0 <= i < j < |rules| :: rules[i].priority != rules[j].priority
    ensures var after := Purged(rules, only, failed);
            (forall r :: r in after <==> r in rules && !Doomed(r, only, failed)) &&
            forall i, j | 0 <= i < j < |after| :: after[i].priority != after[j].priority
  {
    if rules != [] {
      assert rules == [rules[0]] + rules[1..];
      PurgedIsFilter(rules[1..], only, failed);
      var rest := Purged(rules[1..], only, failed);
      forall k | 0 <= k < |rest| ensures rest[k].priority != rules[0].priority {
        assert rest[k] in rules[1..];
        var m :| 0 <= m < |rules[1..]| && rules[1..][m] == rest[k];
      }
    }
  }

  /** A purge never touches the catch-all and removes exactly the rules asked for. */
  lemma PurgeKeepsListener(rules: seq<Rule>, only: Option<set<string>>, failed: set<int>, fleet: set<HostId>)
    requires ListenerOk(rules, fleet)
    ensures ListenerOk(Purged(rules, only, failed), fleet)
    ensures forall r, t | r in rules && PerTenant(r, t) ::
              r in Purged(rules, only, failed) <==>
              r.priority in failed || (only.Some? && t !in only.value)
  {
    PurgedIsFilter(rules, only, failed);
    CatchAllFacts(fleet);
    forall r, t | r in rules && PerTenant(r, t)
      ensures Doomed(r, only, failed) <==> r.priority !in failed && (only.Some? ==> t in only.value)
    {
      PerTenantFacts(r, t);
      assert only.Some? ==> (t in {t} * only.value <==> t in only.value);
    }
  }

  // ---- When the lookup is right ----

  ghost predicate HasRule(rules: seq<Rule>, t: TenantId) {
    exists r <- rules :: PerTenant(r, t)
  }

  /** Adding a rule for a tenant that has none succeeds exactly when no tenant with a rule has an id
      that starts with this tenant's: otherwise the call reports success and adds nothing. */
  lemma AddGivesRuleIff(rules: seq<Rule>, fleet: set<HostId>, t: TenantId, host: HostId, pick: Pick)
    requires ListenerOk(rules, fleet) && ValidId(t) && pick.At? && !HasRule(rules, t)
    ensures HasRule(Added(rules, t, host, pick), t) <==> forall r <- rules, u | PerTenant(r, u) :: !(t <= u)
  {
    CatchAllFacts(fleet);
    forall r, u | r in rules && PerTenant(r, u) ensures LooksUp(r, t) <==> t <= u {
      PerTenantFacts(r, u);
    }
    var after := Added(rules, t, host, pick);
    if exists r <- rules :: LooksUp(r, t) {
      var r :| r in rules && LooksUp(r, t);
      var u :| PerTenant(r, u);
      assert t <= u;
    } else {
      assert PerTenant(after[|rules|], t);
    }
  }

  /** A repoint rewrites the tenant's own rule on every listener, however ordered, exactly when no
      other tenant with a rule has an id that starts with this one's. */
  lemma RepointHitsOwnRuleIff(rules: seq<Rule>, fleet: set<HostId>, t: TenantId)
    requires ListenerOk(rules, fleet) && ValidId(t)
    ensures (forall i | 0 <= i < |rules| && LooksUp(rules[i], t) :: PerTenant(rules[i], t)) <==>
            (forall r <- rules, u | PerTenant(r, u) && t <= u :: u == t)
  {
    CatchAllFacts(fleet);
    forall r, u | r in rules && PerTenant(r, u) ensures LooksUp(r, t) <==> t <= u {
      PerTenantFacts(r, u);
    }
    if forall i | 0 <= i < |rules| && LooksUp(rules[i], t) :: PerTenant(rules[i], t) {
      forall r, u | r in rules && PerTenant(r, u) && t <= u ensures u == t {
        var i :| 0 <= i < |rules| && rules[i] == r;
        SamePatterns(t, u);
      }
    }
    if forall r <- rules, u | PerTenant(r, u) && t <= u :: u == t {
      forall i | 0 <= i < |rules| && LooksUp(rules[i], t) ensures PerTenant(rules[i], t) {
        assert rules[i] in rules;
        var u :| PerTenant(rules[i], u);
      }
    }
  }

  lemma SamePatterns(t: TenantId, u: TenantId)
    ensures PatternsOf(t) == PatternsOf(u) ==> t == u
  {
    assert Exact(t)[4..] == t && Exact(u)[4..] == u;
    assert PatternsOf(t)[0] == Exact(t) && PatternsOf(u)[0] == Exact(u);
  }

  ghost predicate PrefixFree(ids: set<TenantId>) {
    forall t <- ids, u <- ids | t <= u :: t == u
  }

  /** Some way for the search to end, whatever the rules. */
  ghost predicate Chooses(choose: seq<Rule> -> Pick) {
    forall rules :: PickOk(rules, choose(rules))
  }

  datatype Placed = Placed(id: TenantId, host: Option<HostId>)

  ghost predicate OwnersAmong(rules: seq<Rule>, ids: set<TenantId>) {
    forall r <- rules, u | PerTenant(r, u) :: u in ids
  }

  /** With prefix-free ids the lookup of a tenant hits at most its own rule. */
  lemma LookupIsExact(rules: seq<Rule>, fleet: set<HostId>, t: TenantId, ids: set<TenantId>)
    requires ListenerOk(rules, fleet) && ValidId(t) && t in ids && PrefixFree(ids) && OwnersAmong(rules, ids)
    ensures forall r <- rules | LooksUp(r, t) :: PerTenant(r, t)
  {
    CatchAllFacts(fleet);
    forall r | r in rules && LooksUp(r, t) ensures PerTenant(r, t) {
      var u :| PerTenant(r, u);
      PerTenantFacts(r, u);
    }
  }

  /** The rules a rebuild adds: for a listed tenant whose host has an address, to that host. */
  ghost predicate Rebuilt(r: Rule, tenants: seq<Placed>, addressed: set<HostId>) {
    exists k :: 0 <= k < |tenants| && tenants[k].host.Some? && tenants[k].host.value in addressed &&
                PerTenant(r, tenants[k].id) && r.action == {tenants[k].host.value}
  }

  /** Some search for a priority ended without one. */
  ghost predicate MayFail(choose: seq<Rule> -> Pick) {
    exists rules :: !choose(rules).At?
  }

  lemma AddedKeeps(before: seq<Rule>, tenants: seq<Placed>, i: nat, pick: Pick, addressed: set<HostId>,
                   ids: set<TenantId>)
    requires i < |tenants| && ValidId(tenants[i].id) && tenants[i].id in ids
    requires tenants[i].host.Some? && tenants[i].host.value in addressed
    requires OwnersAmong(before, ids)
    ensures var after := Added(before, tenants[i].id, tenants[i].host.value, pick);
            before <= after && OwnersAmong(after, ids) && (forall r <- after[|before|..] :: Rebuilt(r, tenants, addressed)) &&
            ((forall r <- before :: !LooksUp(r, tenants[i].id)) && pick.At? ==> HasRule(after, tenants[i].id))
  {
    var t, host := tenants[i].id, tenants[i].host.value;
    var after := Added(before, t, host, pick);
    if after != before {
      var added := after[|before|];
      assert added in after && PerTenant(added, t) && Rebuilt(added, tenants, addressed);
      forall r, u | r in after && PerTenant(r, u) ensures u in ids {
        if r !in before {
          assert r == added;
          SamePatterns(t, u);
        }
      }
    }
  }

  /** One tenant of the rebuild. */
  method RebuildOne(l: Listener, tenants: seq<Placed>, i: nat, have: bool, addressed: set<HostId>,
                    choose: seq<Rule> -> Pick, ghost ids: set<TenantId>) returns (ok: bool)
    requires l.Valid() && addressed <= l.fleet && Chooses(choose) && i < |tenants|
    requires ValidId(tenants[i].id) && tenants[i].id in ids && OwnersAmong(l.rules, ids)
    requires have ==> HasRule(l.rules, tenants[i].id)
    modifies l`rules
    ensures l.Valid() && old(l.rules) <= l.rules && OwnersAmong(l.rules, ids)
    ensures forall r <- l.rules[|old(l.rules)|..] :: Rebuilt(r, tenants, addressed)
    ensures PrefixFree(ids) && tenants[i].host.Some? && tenants[i].host.value in addressed && ok ==>
              HasRule(l.rules, tenants[i].id)
    ensures !ok ==> MayFail(choose) && tenants[i].host.Some? && tenants[i].host.value in addressed &&
                    forall r <- old(l.rules) :: !LooksUp(r, tenants[i].id)
  {
    ok := true;
    var p := tenants[i];
    if !have && p.host.Some? && p.host.value in addressed {
      var pick := choose(l.rules);
      AddedKeeps(l.rules, tenants, i, pick, addressed, ids);
      if PrefixFree(ids) { LookupIsExact(l.rules, l.fleet, p.id, ids); }
      ok := l.AddAlbRule(p.id, p.host.value, pick);
    }
  }

  lemma StillHasRule(before: seq<Rule>, after: seq<Rule>, t: TenantId)
    requires HasRule(before, t) && before <= after
    ensures HasRule(after, t)
  {
    var r :| r in before && PerTenant(r, t);
    assert r in after;
  }

  /** The tenants before `n` whose host has an address and whose rule was not refused have one. */
  ghost predicate AllHaveRules(rules: seq<Rule>, tenants: seq<Placed>, n: nat, addressed: set<HostId>,
                               failed: set<TenantId>) {
    forall k | 0 <= k < n && k < |tenants| && tenants[k].host.Some? && tenants[k].host.value in addressed &&
               tenants[k].id !in failed :: HasRule(rules, tenants[k].id)
  }

  lemma OneMoreHasRule(before: seq<Rule>, after: seq<Rule>, tenants: seq<Placed>, i: nat, addressed: set<HostId>,
                       failed: set<TenantId>, ok: bool)
    requires AllHaveRules(before, tenants, i, addressed, failed) && before <= after && i < |tenants|
    requires tenants[i].host.Some? && tenants[i].host.value in addressed && ok ==> HasRule(after, tenants[i].id)
    ensures AllHaveRules(after, tenants, i + 1, addressed, if ok then failed else failed + {tenants[i].id})
  {
    forall k | 0 <= k < i && HasRule(before, tenants[k].id) ensures HasRule(after, tenants[k].id) {
      StillHasRule(before, after, tenants[k].id);
    }
  }

  /** `rebuild_routing` (not a dry run) over the routable tenants.  Nothing that exists is touched;
      with prefix-free ids every tenant whose host has an address ends up with a rule of its own, a
      new one pointing at its host, unless the search for its priority ended without one; a search that
      always finds one leaves nobody out. */
  method RebuildRouting(l: Listener, tenants: seq<Placed>, addressed: set<HostId>,
                        choose: seq<Rule> -> Pick, ghost ids: set<TenantId>)
    returns (failed: set<TenantId>)
    requires l.Valid() && addressed <= l.fleet && Chooses(choose) && OwnersAmong(l.rules, ids)
    requires forall i | 0 <= i < |tenants| :: ValidId(tenants[i].id) && tenants[i].id in ids
    modifies l`rules
    ensures l.Valid() && old(l.rules) <= l.rules
    ensures forall r <- l.rules[|old(l.rules)|..] :: Rebuilt(r, tenants, addressed)
    ensures PrefixFree(ids) ==> AllHaveRules(l.rules, tenants, |tenants|, addressed, failed)
    ensures failed != {} ==> MayFail(choose)
    ensures forall t <- failed :: forall r <- old(l.rules) :: !LooksUp(r, t)
  {
    failed := {};
    var start := l.rules;
    for i := 0 to |tenants|
      invariant l.Valid() && start <= l.rules && OwnersAmong(l.rules, ids)
      invariant forall r <- l.rules[|start|..] :: Rebuilt(r, tenants, addressed)
      invariant PrefixFree(ids) ==> AllHaveRules(l.rules, tenants, i, addressed, failed)
      invariant failed != {} ==> MayFail(choose)
      invariant forall t <- failed :: forall r <- start :: !LooksUp(r, t)
    {
      var have := exists r <- start :: tenants[i].id in TidsOf(r);
      if r :| r in start && tenants[i].id in TidsOf(r) {
        OwnerOf(l.rules, l.fleet, r, tenants[i].id);
      }
      ghost var before := l.rules;
      var ok := RebuildOne(l, tenants, i, have, addressed, choose, ids);
      if PrefixFree(ids) { OneMoreHasRule(before, l.rules, tenants, i, addressed, failed, ok); }
      if !ok { failed := failed + {tenants[i].id}; }
      assert l.rules[|start|..] == before[|start|..] + l.rules[|before|..];
    }
  }

  lemma OwnerOf(rules: seq<Rule>, fleet: set<HostId>, r: Rule, t: TenantId)
    requires r in rules && t in TidsOf(r) && ListenerOk(rules, fleet)
    ensures HasRule(rules, t)
  {
    CatchAllFacts(fleet);
    var u :| PerTenant(r, u);
    PerTenantFacts(r, u);
  }
}
