/** From the listener to the owner: the hosts' peer maps as a second hop.

    A host's public server (`:80`) includes the peer confs before its local confs and forwards a
    peered request, path unchanged, to the internal server (`:8081`) of the address in the conf;
    the internal server includes local confs only. */
module Delivery {
  import opened Tables
  import opened Routing

  datatype Placement = Placement(status: TenantStatus, host: Option<HostId>)

  predicate Routable(p: Placement) {
    p.status == Running || p.status == FailoverQueued || p.status == FailoverRecovering
  }

  /** The peer set `_sync_tenant_routes` wants on host `me`: routable tenants of other hosts with an
      address, minus those this host has a local conf for. */
  function Desired(me: HostId, tenants: map<TenantId, Placement>, ips: map<HostId, string>,
                   local: set<TenantId>): map<TenantId, string>
  {
    map t | t in tenants && t != "" && Routable(tenants[t]) && tenants[t].host.Some? &&
            tenants[t].host.value != me && t !in local && tenants[t].host.value in ips
          :: ips[tenants[t].host.value]
  }

  /** `local`: local confs per host; `peers`: the peer set each host's nginx runs with; `at`: which
      host answers at an address. */
  datatype Fleet = Fleet(local: map<HostId, set<TenantId>>, peers: map<HostId, map<TenantId, string>>,
                         at: map<string, HostId>)

  datatype Node = Public(host: HostId) | Internal(host: HostId)
  datatype Request = Request(node: Node, path: string)

  ghost predicate Peered(f: Fleet, h: HostId, path: string) {
    h in f.peers && exists t <- f.peers[h] :: LocationOf(t, path)
  }

  /** One forwarding hop. */
  ghost predicate Forwards(f: Fleet, q: Request, r: Request) {
    q.node.Public? && q.node.host in f.peers && r.path == q.path && r.node.Internal? &&
    exists t <- f.peers[q.node.host] :: LocationOf(t, q.path) && f.peers[q.node.host][t] in f.at &&
                                        r.node.host == f.at[f.peers[q.node.host][t]]
  }

  /** The request ends here, at the VM of `t`. */
  ghost predicate Serves(f: Fleet, q: Request, t: TenantId) {
    q.node.host in f.local && t in f.local[q.node.host] && LocationOf(t, q.path) &&
    (q.node.Public? ==> !Peered(f, q.node.host, q.path))
  }

  ghost predicate Route(f: Fleet, hops: seq<Request>) {
    hops != [] && (|hops| > 1 ==> Forwards(f, hops[0], hops[1]) && Route(f, hops[1..]))
  }

  /** No state has a forwarding loop, synced or not: a request is forwarded once at most. */
  lemma NoForwardingLoops(f: Fleet, hops: seq<Request>)
    requires Route(f, hops)
    ensures |hops| <= 2
  {
    if |hops| > 1 {
      assert hops[1].node.Internal? && Route(f, hops[1..]) && hops[1..][0] == hops[1];
    }
  }

  /** A request that enters at host `first` is served by `owner`'s VM of `t`, with its path intact. */
  ghost predicate Delivered(f: Fleet, first: HostId, path: string, owner: HostId, t: TenantId) {
    exists hops: seq<Request> :: Route(f, hops) && hops[0] == Request(Public(first), path) &&
      hops[|hops| - 1].node.host == owner && hops[|hops| - 1].path == path && Serves(f, hops[|hops| - 1], t)
  }

  /** Every host has synced since the last change, addresses are distinct, ids are well formed. */
  ghost predicate Synced(f: Fleet, tenants: map<TenantId, Placement>, ips: map<HostId, string>) {
    f.peers.Keys == f.local.Keys &&
    (forall h <- f.local :: f.peers[h] == Desired(h, tenants, ips, f.local[h])) &&
    (forall h <- ips :: ips[h] in f.at && f.at[ips[h]] == h) &&
    (forall t <- tenants :: ValidId(t)) && (forall h <- f.local, t <- f.local[h] :: ValidId(t))
  }

  lemma PeeredOnlyAsDesired(f: Fleet, tenants: map<TenantId, Placement>, ips: map<HostId, string>,
                            t: TenantId, h: HostId, path: string)
    requires Synced(f, tenants, ips) && h in f.local && ValidId(t) && LocationOf(t, path)
    ensures Peered(f, h, path) <==> t in f.peers[h]
    ensures forall u <- f.peers[h] | LocationOf(u, path) :: u == t
    ensures forall u <- f.local[h] | LocationOf(u, path) :: u == t
  {
    forall u | u in f.peers[h] && LocationOf(u, path) ensures u == t {
      LocationIsUnique(t, u, path);
    }
    forall u | u in f.local[h] && LocationOf(u, path) ensures u == t {
      LocationIsUnique(t, u, path);
    }
  }

  /** On a synced fleet a request for a routable tenant reaches its owner from host `first` exactly
      when the owner has the tenant's local conf and `first` is the owner itself, or has no (stale)
      local conf of its own for it and knows the owner's address. */
  lemma DeliveredIff(f: Fleet, tenants: map<TenantId, Placement>, ips: map<HostId, string>,
                     t: TenantId, owner: HostId, first: HostId, path: string)
    requires Synced(f, tenants, ips) && t in tenants && Routable(tenants[t]) && tenants[t].host == Some(owner)
    requires owner in f.local && first in f.local && LocationOf(t, path)
    ensures Delivered(f, first, path, owner, t) <==>
              t in f.local[owner] && (first == owner || (t !in f.local[first] && owner in ips))
  {
    PeeredOnlyAsDesired(f, tenants, ips, t, first, path);
    var q := Request(Public(first), path);
    var r := Request(Internal(owner), path);
    assert t in f.peers[first] <==> first != owner && t !in f.local[first] && owner in ips;
    if t in f.local[owner] && (first == owner || (t !in f.local[first] && owner in ips)) {
      if first == owner {
        assert Serves(f, q, t);
        assert Route(f, [q]);
        assert [q][|[q]| - 1] == q;
      } else {
        assert f.peers[first][t] == ips[owner];
        assert Forwards(f, q, r) && Serves(f, r, t);
        assert [q, r][1..] == [r] && Route(f, [r]);
        assert Route(f, [q, r]);
        assert [q, r][|[q, r]| - 1] == r;
      }
    }
    if Delivered(f, first, path, owner, t) {
      var hops: seq<Request> :| Route(f, hops) && hops[0] == q && hops[|hops| - 1].node.host == owner &&
                  Serves(f, hops[|hops| - 1], t);
      NoForwardingLoops(f, hops);
      if |hops| == 2 {
        assert Forwards(f, hops[0], hops[1]);
      }
    }
  }

  /** The fleet's confs track reality: a routable tenant's conf is on its owner and nowhere else, and
      the owner has an address. */
  ghost predicate InPlace(f: Fleet, tenants: map<TenantId, Placement>, ips: map<HostId, string>) {
    forall t <- tenants | Routable(tenants[t]) && tenants[t].host.Some? ::
      tenants[t].host.value in f.local && tenants[t].host.value in ips &&
      forall h <- f.local :: t in f.local[h] <==> h == tenants[t].host.value
  }

  /** Cutover safety: whatever per-tenant rules the listener has, pointing at whatever hosts, with
      whatever priorities; whichever host the chosen target group picks. */
  lemma AnyMixtureDelivers(rules: seq<Rule>, f: Fleet, tenants: map<TenantId, Placement>, ips: map<HostId, string>,
                           t: TenantId, path: string)
    requires ListenerOk(rules, f.local.Keys) && Synced(f, tenants, ips) && InPlace(f, tenants, ips)
    requires t in tenants && Routable(tenants[t]) && tenants[t].host.Some? && LocationOf(t, path)
    ensures exists r :: Routes(rules, path, r)
    ensures forall r, first | Routes(rules, path, r) && first in r.action ::
              Delivered(f, first, path, tenants[t].host.value, t)
  {
    RequestsFindTheirRule(rules, f.local.Keys, t, path);
    forall r, first | Routes(rules, path, r) && first in r.action
      ensures Delivered(f, first, path, tenants[t].host.value, t)
    {
      DeliveredIff(f, tenants, ips, t, tenants[t].host.value, first, path);
    }
  }

  // ---- Over runs of listener operations ----

  datatype Op =
    | Add(t: TenantId, host: HostId, pick: Pick)
    | Repoint(t: TenantId, host: HostId, index: nat)
    | Purge(only: Option<set<string>>, failed: set<int>)

  /** What one operation of the listener does; `Repoint` covers every rule its lookup may hit. */
  ghost predicate Applies(op: Op, rules: seq<Rule>, after: seq<Rule>, fleet: set<HostId>) {
    match op
    case Add(t, host, pick) =>
      ValidId(t) && host in fleet && PickOk(rules, pick) && after == Added(rules, t, host, pick)
    case Repoint(t, host, i) =>
      ValidId(t) && host in fleet && i < |rules| && LooksUp(rules[i], t) &&
      after == rules[i := rules[i].(action := {host})]
    case Purge(only, failed) => after == Purged(rules, only, failed)
  }

  lemma AddKeepsListener(rules: seq<Rule>, fleet: set<HostId>, t: TenantId, host: HostId, pick: Pick)
    requires ListenerOk(rules, fleet) && ValidId(t) && host in fleet && PickOk(rules, pick)
    ensures ListenerOk(Added(rules, t, host, pick), fleet)
  {
    var after := Added(rules, t, host, pick);
    if after != rules {
      assert PerTenant(after[|rules|], t);
    }
  }

  /** Every request for a routable tenant is delivered after any sequence of rule additions (by
      creates, rebuilds or failovers), repoints and full or partial purges. */
  lemma {:induction false} CutoverIsSafe(ops: seq<Op>, listeners: seq<seq<Rule>>, f: Fleet,
                                         tenants: map<TenantId, Placement>, ips: map<HostId, string>, n: nat)
    requires |listeners| == |ops| + 1 && n <= |ops| && ListenerOk(listeners[0], f.local.Keys)
    requires forall i | 0 <= i < |ops| :: Applies(ops[i], listeners[i], listeners[i + 1], f.local.Keys)
    requires Synced(f, tenants, ips) && InPlace(f, tenants, ips)
    ensures ListenerOk(listeners[n], f.local.Keys)
    ensures forall t, path, r, first |
              t in tenants && tenants[t].status in {Running, FailoverQueued, FailoverRecovering} &&
              tenants[t].host.Some? && LocationOf(t, path) &&
              Routes(listeners[n], path, r) && first in r.action ::
              Delivered(f, first, path, tenants[t].host.value, t)
  {
    if n > 0 {
      CutoverIsSafe(ops, listeners, f, tenants, ips, n - 1);
      assert Applies(ops[n - 1], listeners[n - 1], listeners[n - 1 + 1], f.local.Keys);
      match ops[n - 1]
      case Add(t, host, pick) => AddKeepsListener(listeners[n - 1], f.local.Keys, t, host, pick);
      case Repoint(t, host, i) => KeepsListener(listeners[n - 1], i, host, f.local.Keys, t);
      case Purge(only, failed) => PurgeKeepsListener(listeners[n - 1], only, failed, f.local.Keys);
    }
    forall t, path, r, first |
      t in tenants && Routable(tenants[t]) && tenants[t].host.Some? && LocationOf(t, path) &&
      Routes(listeners[n], path, r) && first in r.action
      ensures Delivered(f, first, path, tenants[t].host.value, t)
    {
      AnyMixtureDelivers(listeners[n], f, tenants, ips, t, path);
    }
  }
}
