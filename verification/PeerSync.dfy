/** The peer-map sync of one host: interval gate, hash gate, files, `nginx -t`, reload.

    The digest of the rendered set is taken as an injective function, so the hash is represented
    by the set itself; confs are represented by the address they proxy to. */
module PeerSync {
  import opened Tables
  import Delivery

  type Peers = map<TenantId, string>

  /** What one tick meets.  `scanned`: both table scans came back; `stuck`: stale files whose removal
      failed (ignored by the code); `written`: how many confs were written before an exception, if
      one was raised. */
  datatype Oracle = Oracle(scanned: bool, stuck: set<TenantId>, written: Option<set<TenantId>>, testOk: bool, reloadOk: bool)

  /** `dir` is the peer directory, `loaded` the set nginx runs with, `hash` what was last recorded. */
  datatype State = State(lastSync: int, hash: Option<Peers>, dir: Peers, loaded: Peers, failures: nat, ready: bool)

  predicate Due(s: State, now: int, interval: int) {
    now - s.lastSync >= interval
  }

  /** The tick gets as far as comparing: it is due and its scans come back. */
  predicate Compares(s: State, now: int, interval: int, o: Oracle) {
    Due(s, now, interval) && o.scanned
  }

  /** The tick gets as far as applying the desired set. */
  predicate Attempts(s: State, now: int, interval: int, desired: Peers, o: Oracle) {
    Compares(s, now, interval, o) && s.hash != Some(desired)
  }

  predicate Applied(o: Oracle) {
    o.written.None? && o.testOk && o.reloadOk
  }

  /** The directory after removing stale files and writing the desired ones (all, or those written
      before an exception). */
  function Rewritten(dir: Peers, desired: Peers, o: Oracle): Peers {
    map t | t in dir.Keys + desired.Keys &&
            (t in desired || t in o.stuck) && (t in dir || o.written.None? || t in o.written.value)
          :: if t in desired && (o.written.None? || t in o.written.value) then desired[t] else
             if t in dir then dir[t] else ""
  }

  function TickStep(s: State, now: int, interval: int, desired: Peers, o: Oracle): State {
    if !Due(s, now, interval) then s
    else if !o.scanned || s.hash == Some(desired) then s.(lastSync := now)
    else
      var dir := Rewritten(s.dir, desired, o);
      if Applied(o) then State(now, Some(desired), dir, dir, s.failures, true)
      else s.(lastSync := now, dir := dir, failures := s.failures + (if o.written.None? then 1 else 0))
  }

  class Agent {
    const me: HostId
    const interval: int
    var lastSync: int
    var hash: Option<Peers>
    var dir: Peers
    var loaded: Peers
    var failures: nat
    var ready: bool

    constructor (me: HostId, interval: int)
      ensures this.me == me && this.interval == interval
      ensures View() == State(0, None, map[], map[], 0, false)
    {
      this.me, this.interval := me, interval;
      lastSync, hash, dir, loaded, failures, ready := 0, None, map[], map[], 0, false;
    }

    ghost function View(): State
      reads this
    {
      State(lastSync, hash, dir, loaded, failures, ready)
    }

    /** `_sync_tenant_routes`; `tenants` and `ips` are the two scans, `local` the local conf files. */
    method SyncTenantRoutes(now: int, tenants: map<TenantId, Delivery.Placement>, ips: map<HostId, string>,
                            local: set<TenantId>, o: Oracle)
      modifies this
      ensures View() == TickStep(old(View()), now, interval, Delivery.Desired(me, tenants, ips, local), o)
    {
      if now - lastSync < interval {
        return;
      }
      lastSync := now;
      if !o.scanned {
        return;
      }
      var desired := Delivery.Desired(me, tenants, ips, local);
      if hash == Some(desired) {
        return;
      }
      WriteFiles(desired, o);
      if o.written.Some? {
        return;
      }
      if !o.testOk {
        failures := failures + 1;
        return;
      }
      if !o.reloadOk {
        failures := failures + 1;
        return;
      }
      loaded := dir;
      hash := Some(desired);
      ready := true;
    }

    /** Removes stale files, ignoring a removal that fails, then writes the desired confs; an
        exception stops the writing with some of them written. */
    method WriteFiles(desired: Peers, o: Oracle)
      modifies this`dir
      ensures dir == Rewritten(old(dir), desired, o)
    {
      var stale := set t | t in dir && t !in desired && t !in o.stuck;
      dir := dir - stale;
      var written := if o.written.None? then desired.Keys else o.written.value * desired.Keys;
      dir := dir + (map t | t in written && t in desired :: desired[t]);
    }
  }

  // ---- Runs ----

  datatype Tick = Tick(now: int, desired: Peers, o: Oracle)

  /** Ticks with arbitrary write, test and reload failures; removals succeed, and nobody else edits
      the directory or reloads. */
  ghost predicate Run(states: seq<State>, ticks: seq<Tick>, interval: int) {
    |states| == |ticks| + 1 && states[0].hash == None &&
    forall i | 0 <= i < |ticks| ::
      ticks[i].o.stuck == {} &&
      states[i + 1] == TickStep(states[i], ticks[i].now, interval, ticks[i].desired, ticks[i].o)
  }

  /** From any start of the agent, whatever nginx runs with: the recorded hash always denotes the
      peer set nginx runs with, and the host is published as ready once a set has been applied. */
  lemma {:induction false} HashDenotesLoaded(states: seq<State>, ticks: seq<Tick>, interval: int, n: nat)
    requires Run(states, ticks, interval) && n < |states|
    ensures states[n].hash.Some? ==> states[n].hash.value == states[n].loaded
    ensures states[n].hash.None? ==> states[n].loaded == states[0].loaded && states[n].ready == states[0].ready
    ensures states[n].hash.Some? ==> states[n].ready
  {
    if n > 0 {
      HashDenotesLoaded(states, ticks, interval, n - 1);
      var t := ticks[n - 1];
      if t.o.written.None? { AppliedDirIsDesired(states[n - 1].dir, t.desired, t.o); }
    }
  }

  /** After a complete write the directory holds exactly the desired confs. */
  lemma AppliedDirIsDesired(dir: Peers, desired: Peers, o: Oracle)
    requires o.stuck == {} && o.written.None?
    ensures Rewritten(dir, desired, o) == desired
  {
  }

  /** An applied tick leaves directory, running configuration and record equal to the desired set. */
  lemma ApplyIsExact(s: State, now: int, interval: int, desired: Peers, o: Oracle)
    requires now - s.lastSync >= interval && o.scanned && s.hash != Some(desired)
    requires o.stuck == {} && o.written.None? && o.testOk && o.reloadOk
    ensures var s' := TickStep(s, now, interval, desired, o);
            s'.dir == desired && s'.loaded == desired && s'.hash == Some(desired) && s'.ready
  {
    AppliedDirIsDesired(s.dir, desired, o);
  }

  /** Any other tick: within the interval nothing at all happens; a tick without its scans, or with the
      set it recorded, only notes the time; a failed test or reload is counted and leaves the running
      set, the record and the readiness alone. */
  lemma OtherTicks(s: State, now: int, interval: int, desired: Peers, o: Oracle)
    ensures var s' := TickStep(s, now, interval, desired, o);
            if now - s.lastSync < interval then s' == s
            else if !o.scanned || s.hash == Some(desired) then s' == s.(lastSync := now)
            else s'.lastSync == now &&
                 (o.written.None? && o.testOk && o.reloadOk ==> s'.failures == s.failures) &&
                 (!(o.written.None? && o.testOk && o.reloadOk) ==>
                    s'.loaded == s.loaded && s'.hash == s.hash && s'.ready == s.ready &&
                    s'.failures == s.failures + (if o.written.None? then 1 else 0))
  {
  }

  /** A failed apply keeps the running set and its record, and is retried at the next due tick whose
      scans come back, exactly when what is wanted then is not what is running: in particular
      whenever the desired set is unchanged. */
  lemma FailedApplyIsRetriedIff(states: seq<State>, ticks: seq<Tick>, interval: int, i: nat, j: nat)
    requires Run(states, ticks, interval) && i < j < |ticks|
    requires Attempts(states[i], ticks[i].now, interval, ticks[i].desired, ticks[i].o) && !Applied(ticks[i].o)
    requires forall k | i < k < j :: !Compares(states[k], ticks[k].now, interval, ticks[k].o)
    requires Compares(states[j], ticks[j].now, interval, ticks[j].o)
    ensures states[j].loaded == states[i].loaded && states[j].hash == states[i].hash
    ensures Attempts(states[j], ticks[j].now, interval, ticks[j].desired, ticks[j].o) <==>
            !(states[j].hash.Some? && ticks[j].desired == states[j].loaded)
    ensures ticks[j].desired == ticks[i].desired ==>
              Attempts(states[j], ticks[j].now, interval, ticks[j].desired, ticks[j].o)
  {
    IdleTicksKeep(states, ticks, interval, i + 1, j);
    HashDenotesLoaded(states, ticks, interval, i);
    HashDenotesLoaded(states, ticks, interval, j);
  }

  lemma {:induction false} IdleTicksKeep(states: seq<State>, ticks: seq<Tick>, interval: int, i: nat, j: nat)
    requires Run(states, ticks, interval) && i <= j <= |ticks|
    requires forall k | i <= k < j :: !Compares(states[k], ticks[k].now, interval, ticks[k].o)
    ensures states[j].(lastSync := states[i].lastSync) == states[i]
  {
    if i < j {
      IdleTicksKeep(states, ticks, interval, i, j - 1);
    }
  }

  /** The gate compares with what is running, not with what is on disk: after a failed apply, going
      back to the running set is not an attempt, and the rejected confs stay in the directory. */
  lemma RejectedConfsStay(s: State, now: int, later: int, interval: int, bad: Peers, o1: Oracle, o2: Oracle)
    requires s.hash == Some(s.loaded) && s.dir == s.loaded && bad != s.loaded && interval >= 0
    requires Due(s, now, interval) && later - now >= interval
    requires o1.scanned && o1.stuck == {} && o1.written.None? && !o1.testOk
    ensures var s1 := TickStep(s, now, interval, bad, o1);
            var s2 := TickStep(s1, later, interval, s.loaded, o2);
            s2.dir == bad && s2.loaded == s.loaded && s2.hash == Some(s.loaded)
  {
    AppliedDirIsDesired(s.dir, bad, o1);
  }

  /** A fleet whose hosts have all applied the current tables is synced in the sense of `Delivery`. */
  lemma AppliedFleetIsSynced(f: Delivery.Fleet, agents: map<HostId, State>,
                             tenants: map<TenantId, Delivery.Placement>, ips: map<HostId, string>)
    requires agents.Keys == f.local.Keys == f.peers.Keys
    requires forall h <- agents :: agents[h].loaded == f.peers[h] && agents[h].hash == Some(agents[h].loaded)
    requires forall h <- agents :: agents[h].hash == Some(Delivery.Desired(h, tenants, ips, f.local[h]))
    requires forall h <- ips :: ips[h] in f.at && f.at[ips[h]] == h
    requires (forall t <- tenants :: Delivery.Routing.ValidId(t)) &&
             (forall h <- f.local, t <- f.local[h] :: Delivery.Routing.ValidId(t))
    ensures Delivery.Synced(f, tenants, ips)
  {
  }
}
