/** The queue protocol of one tenant, seen from the fleet: a run of `Failover`, with the rest of the
    fleet taking steps of `Plane` in between, is a run of `Plane`, and every number it flips with is
    still reserved for it. */
module QueueRefinement {
  import opened Tables
  import Plane
  import TenantApi
  import Numbers
  import Refinement
  import F = Failover

  ghost predicate JobsMatch(p: Plane.State, t: nat, s: F.State) {
    Refinement.RowMatches(p, t, s.row) && forall m | 0 <= m < |s.messages| :: s.messages[m].target in p.hosts
  }

  /** One step of the queue protocol, or anybody's step on the fleet, this tenant's row included; `at`
      is what that step leaves in `failover_at`. */
  datatype Turn = Own(e: F.Event) | Fleet(f: Plane.Event, at: int)

  /** What a step of the protocol writes to the fleet's tables. */
  function WritesOf(s: F.State, e: F.Event, t: nat, timing: F.Timing): seq<Plane.Event>
    requires F.Enabled(s, e, timing)
  {
    match e
    case Queue(target, _, _) => [Plane.SetStatus(t, FailoverQueued), Plane.ReserveFor(target)]
    case Claim(w) => if F.Claimable(s.row) then [Plane.SetStatus(t, FailoverRecovering)] else []
    case Fail(_, status) => [Plane.SetStatus(t, status)]
    case Flip(w) =>
      var msg := s.messages[s.workers[w].msg];
      [Plane.Flip(t, msg.target, msg.vmNum)]
    case Reap => [Plane.SetStatus(t, FailoverFailed)]
    case _ => []
  }

  function RowIn(p: Plane.State, t: nat, at: int): F.Row
    requires t < |p.tenants|
  {
    F.Row(p.tenants[t].status, p.tenants[t].host, p.tenants[t].vmNum, at)
  }

  /** Fleet and protocol step together.  A claim carries the number the fleet hands out; a fleet step
      that changes the tenant's row is another writer of the protocol's, and writes no claimable status. */
  ghost predicate Jointly(p: Plane.State, p': Plane.State, s: F.State, s': F.State, turn: Turn, t: nat,
                          timing: F.Timing, st: Plane.Settings) {
    match turn
    case Own(e) =>
      !e.Other? && F.Enabled(s, e, timing) && s' == F.Step(s, e, timing) &&
      (e.Queue? ==> e.target in p.hosts && e.vmNum == Numbers.Next(p, e.target)) &&
      var writes := WritesOf(s, e, t, timing);
      p' == if TenantApi.AllEnabled(p, writes, st) then TenantApi.StepAll(p, writes, st) else p
    case Fleet(f, at) =>
      Plane.Enabled(p, f, st) && p' == Plane.Step(p, f, st) && t < |p.tenants| && t < |p'.tenants| &&
      F.Enabled(s, Noticed(p, p', t, at), timing) && s' == F.Step(s, Noticed(p, p', t, at), timing)
  }

  /** A step on other rows passes unnoticed. */
  function Noticed(p: Plane.State, p': Plane.State, t: nat, at: int): F.Event
    requires t < |p.tenants| && t < |p'.tenants|
  {
    if RowIn(p', t, at) == RowIn(p, t, at) then F.Wait(0) else F.Other(RowIn(p', t, at))
  }

  ghost predicate Joint(ps: seq<Plane.State>, ss: seq<F.State>, turns: seq<Turn>, t: nat, timing: F.Timing,
                        st: Plane.Settings) {
    |ps| == |ss| == |turns| + 1 &&
    forall i | 0 <= i < |turns| :: Jointly(ps[i], ps[i + 1], ss[i], ss[i + 1], turns[i], t, timing, st)
  }

  ghost function ProtocolEvent(p: Plane.State, p': Plane.State, turn: Turn, t: nat): F.Event
    requires turn.Fleet? ==> t < |p.tenants| && t < |p'.tenants|
  {
    match turn
    case Own(e) => e
    case Fleet(_, at) => Noticed(p, p', t, at)
  }

  lemma TurnIsProtocolStep(p: Plane.State, p': Plane.State, s: F.State, s': F.State, turn: Turn, t: nat,
                           timing: F.Timing, st: Plane.Settings)
    requires Jointly(p, p', s, s', turn, t, timing, st)
    ensures var e := ProtocolEvent(p, p', turn, t);
            F.Enabled(s, e, timing) && s' == F.Step(s, e, timing) &&
            (turn.Own? ==> e == turn.e) && (turn.Fleet? ==> !e.Queue?)
  {
  }

  /** The first `n` events lead along the states. */
  ghost predicate LeadsAlong(ss: seq<F.State>, events: seq<F.Event>, timing: F.Timing, n: nat) {
    |events| == n < |ss| &&
    forall i | 0 <= i < n :: F.Enabled(ss[i], events[i], timing) && ss[i + 1] == F.Step(ss[i], events[i], timing)
  }

  /** The protocol's side of a joint run is a run of `Failover`. */
  lemma {:induction false} ProtocolRuns(ps: seq<Plane.State>, ss: seq<F.State>, turns: seq<Turn>, t: nat,
                                        timing: F.Timing, st: Plane.Settings, n: nat) returns (events: seq<F.Event>)
    requires Joint(ps, ss, turns, t, timing, st) && n <= |turns|
    ensures LeadsAlong(ss, events, timing, n) && F.Continues(ss[..n + 1], events, timing)
    ensures forall i | 0 <= i < n && turns[i].Own? :: events[i] == turns[i].e
    ensures forall i | 0 <= i < n && turns[i].Fleet? :: !events[i].Queue?
  {
    if n == 0 {
      events := [];
    } else {
      var before := ProtocolRuns(ps, ss, turns, t, timing, st, n - 1);
      assert Jointly(ps[n - 1], ps[n - 1 + 1], ss[n - 1], ss[n - 1 + 1], turns[n - 1], t, timing, st);
      TurnIsProtocolStep(ps[n - 1], ps[n], ss[n - 1], ss[n], turns[n - 1], t, timing, st);
      events := before + [ProtocolEvent(ps[n - 1], ps[n], turns[n - 1], t)];
      OneMoreStep(ss, before, events[n - 1], timing, n);
    }
  }

  lemma OneMoreStep(ss: seq<F.State>, events: seq<F.Event>, e: F.Event, timing: F.Timing, n: nat)
    requires 0 < n < |ss| && LeadsAlong(ss, events, timing, n - 1)
    requires F.Enabled(ss[n - 1], e, timing) && ss[n] == F.Step(ss[n - 1], e, timing)
    ensures LeadsAlong(ss, events + [e], timing, n) && F.Continues(ss[..n + 1], events + [e], timing)
  {
    forall i | 0 <= i < n
      ensures F.Enabled(ss[i], (events + [e])[i], timing) && ss[i + 1] == F.Step(ss[i], (events + [e])[i], timing)
    {
      assert i < n - 1 ==> (events + [e])[i] == events[i];
    }
  }

  /** What the protocol writes, the fleet can do. */
  lemma WritesAreEnabled(p: Plane.State, s: F.State, e: F.Event, t: nat, timing: F.Timing, st: Plane.Settings)
    requires JobsMatch(p, t, s) && F.Enabled(s, e, timing) && !e.Other? && (e.Queue? ==> e.target in p.hosts)
    ensures TenantApi.AllEnabled(p, WritesOf(s, e, t, timing), st)
    ensures JobsMatch(TenantApi.StepAll(p, WritesOf(s, e, t, timing), st), t, F.Step(s, e, timing))
  {
    var writes := WritesOf(s, e, t, timing);
    if e.Queue? {
      TwoSteps(p, writes[0], writes[1], st);
    } else if writes != [] {
      OneStep(p, writes[0], st);
    }
  }

  lemma OneStep(p: Plane.State, e: Plane.Event, st: Plane.Settings)
    requires Plane.Enabled(p, e, st)
    ensures TenantApi.AllEnabled(p, [e], st) && TenantApi.StepAll(p, [e], st) == Plane.Step(p, e, st)
  {
  }

  lemma TwoSteps(p: Plane.State, e: Plane.Event, f: Plane.Event, st: Plane.Settings)
    requires Plane.Enabled(p, e, st) && Plane.Enabled(Plane.Step(p, e, st), f, st)
    ensures TenantApi.AllEnabled(p, [e, f], st)
    ensures TenantApi.StepAll(p, [e, f], st) == Plane.Step(Plane.Step(p, e, st), f, st)
  {
    assert [e, f][1..] == [f];
    OneStep(Plane.Step(p, e, st), f, st);
  }

  // ---- The fleet's side ----

  lemma TurnIsLegal(p: Plane.State, p': Plane.State, s: F.State, s': F.State, turn: Turn, t: nat,
                    timing: F.Timing, st: Plane.Settings) returns (writes: seq<Plane.Event>)
    requires Jointly(p, p', s, s', turn, t, timing, st) && JobsMatch(p, t, s) && Plane.Inv(p)
    ensures JobsMatch(p', t, s') && TenantApi.AllEnabled(p, writes, st) && TenantApi.StepAll(p, writes, st) == p'
  {
    match turn
    case Own(e) =>
      writes := WritesOf(s, e, t, timing);
      WritesAreEnabled(p, s, e, t, timing, st);
    case Fleet(f, _) =>
      writes := [f];
      OneStep(p, f, st);
      Plane.StepKeepsHosts(p, f, st);
  }

  /** The fleet's side of a joint run: some legal trace, rows and messages matching throughout. */
  lemma {:induction false} FleetRuns(ps: seq<Plane.State>, ss: seq<F.State>, turns: seq<Turn>, t: nat,
                                     timing: F.Timing, st: Plane.Settings, n: nat) returns (trace: seq<Plane.Event>)
    requires Joint(ps, ss, turns, t, timing, st) && JobsMatch(ps[0], t, ss[0]) && Plane.Inv(ps[0])
    requires n <= |turns|
    ensures JobsMatch(ps[n], t, ss[n]) && Plane.Inv(ps[n])
    ensures TenantApi.Legal(ps[0], trace, st) && TenantApi.After(ps[0], trace, st) == ps[n]
  {
    if n == 0 {
      trace := [];
    } else {
      trace := FleetRuns(ps, ss, turns, t, timing, st, n - 1);
      assert Jointly(ps[n - 1], ps[n - 1 + 1], ss[n - 1], ss[n - 1 + 1], turns[n - 1], t, timing, st);
      var more := TurnIsLegal(ps[n - 1], ps[n], ss[n - 1], ss[n], turns[n - 1], t, timing, st);
      trace := TenantApi.ExtendAll(ps[0], trace, more, st);
      TenantApi.TraceKeepsInv(ps[0], trace, st);
    }
  }

  // ---- Reservations ----

  function Pair(msg: F.Message): (HostId, int) { (msg.target, msg.vmNum) }

  /** The numbers of the protocol's jobs: all below `next_vm_num`, no two alike, each reserved until its
      claim flips. */
  ghost predicate Reserved(p: Plane.State, s: F.State) {
    (forall m | 0 <= m < |s.messages| :: Numbers.BelowNext(p, Pair(s.messages[m]))) &&
    (forall m, n | 0 <= m < n < |s.messages| ::
       Pair(s.messages[m]) != Pair(s.messages[n]) && s.messages[m].claim < s.messages[n].claim) &&
    (forall m | 0 <= m < |s.messages| :: s.messages[m].claim <= s.claims) &&
    (forall m | 0 <= m < |s.messages| && s.messages[m].claim !in s.flips :: Pair(s.messages[m]) in p.reserved)
  }

  /** Nobody else flips with a number reserved for this tenant. */
  ghost predicate HandsOff(s: F.State, turn: Turn) {
    turn.Fleet? && turn.f.Flip? ==>
      forall m | 0 <= m < |s.messages| :: Pair(s.messages[m]) != (turn.f.target, turn.f.vmNum)
  }

  /** What a step of the fleet leaves of numbers and reservations. */
  lemma StepKeepsReservations(p: Plane.State, f: Plane.Event, st: Plane.Settings, pair: (HostId, int))
    requires Plane.Inv(p) && Plane.Enabled(p, f, st)
    ensures Numbers.BelowNext(p, pair) ==> Numbers.BelowNext(Plane.Step(p, f, st), pair)
    ensures pair in p.reserved && !(f.Flip? && (f.target, f.vmNum) == pair) ==> pair in Plane.Step(p, f, st).reserved
  {
    Numbers.StepMovesForward(p, f, st);
  }

  /** Steps of the fleet keep the jobs' numbers reserved, whatever the protocol notices of them. */
  lemma FleetKeepsReserved(p: Plane.State, f: Plane.Event, st: Plane.Settings, s: F.State)
    requires Plane.Inv(p) && Plane.Enabled(p, f, st) && Reserved(p, s)
    requires f.Flip? ==> forall m | 0 <= m < |s.messages| :: Pair(s.messages[m]) != (f.target, f.vmNum)
    ensures Reserved(Plane.Step(p, f, st), s)
  {
    forall m | 0 <= m < |s.messages|
      ensures Numbers.BelowNext(Plane.Step(p, f, st), Pair(s.messages[m]))
      ensures s.messages[m].claim !in s.flips ==> Pair(s.messages[m]) in Plane.Step(p, f, st).reserved
    {
      StepKeepsReservations(p, f, st, Pair(s.messages[m]));
    }
  }

  /** The protocol's view of messages and claims that neither queues nor flips. */
  predicate SameJobs(s: F.State, s': F.State) {
    |s'.messages| == |s.messages| && s'.claims == s.claims && s'.flips == s.flips &&
    forall m | 0 <= m < |s.messages| ::
      Pair(s'.messages[m]) == Pair(s.messages[m]) && s'.messages[m].claim == s.messages[m].claim
  }

  lemma OtherStepsKeepJobs(s: F.State, e: F.Event, timing: F.Timing)
    requires F.Enabled(s, e, timing) && !e.Queue? && !e.Flip?
    ensures SameJobs(s, F.Step(s, e, timing))
  {
  }

  /** What queueing a job writes: the number it carries is the current one, and reserved. */
  lemma QueueWrites(p: Plane.State, target: HostId, t: nat, st: Plane.Settings)
    requires target in p.hosts && t < |p.tenants| && Plane.Inv(p)
    ensures var mark, reserve := Plane.SetStatus(t, FailoverQueued), Plane.ReserveFor(target);
            Plane.Enabled(p, mark, st) &&
            var p1 := Plane.Step(p, mark, st);
            Plane.Inv(p1) && Plane.Enabled(p1, reserve, st) &&
            var p2 := Plane.Step(p1, reserve, st);
            TenantApi.AllEnabled(p, [mark, reserve], st) && TenantApi.StepAll(p, [mark, reserve], st) == p2 &&
            (target, Numbers.Next(p, target)) in p2.reserved && Numbers.BelowNext(p2, (target, Numbers.Next(p, target)))
  {
    var mark, reserve := Plane.SetStatus(t, FailoverQueued), Plane.ReserveFor(target);
    TwoSteps(p, mark, reserve, st);
    Plane.StepKeepsInv(p, mark, st);
  }

  lemma NewJobReserved(p: Plane.State, p': Plane.State, s: F.State, e: F.Event, timing: F.Timing)
    requires e.Queue? && F.Enabled(s, e, timing) && Reserved(p, s) && Reserved(p', s)
    requires e.target in p.hosts && e.vmNum == Numbers.Next(p, e.target)
    requires (e.target, e.vmNum) in p'.reserved && Numbers.BelowNext(p', (e.target, e.vmNum))
    ensures Reserved(p', F.Step(s, e, timing))
  {
    assert forall m | 0 <= m < |s.messages| ::
        Numbers.BelowNext(p, Pair(s.messages[m])) && Pair(s.messages[m]) != (e.target, e.vmNum);
  }

  lemma QueueReserves(p: Plane.State, s: F.State, e: F.Event, t: nat, timing: F.Timing, st: Plane.Settings)
    requires e.Queue? && F.Enabled(s, e, timing) && t < |p.tenants| && Plane.Inv(p) && Reserved(p, s)
    requires e.target in p.hosts && e.vmNum == Numbers.Next(p, e.target)
    ensures TenantApi.AllEnabled(p, WritesOf(s, e, t, timing), st)
    ensures Reserved(TenantApi.StepAll(p, WritesOf(s, e, t, timing), st), F.Step(s, e, timing))
  {
    var mark, reserve := Plane.SetStatus(t, FailoverQueued), Plane.ReserveFor(e.target);
    QueueWrites(p, e.target, t, st);
    var p1 := Plane.Step(p, mark, st);
    FleetKeepsReserved(p, mark, st, s);
    FleetKeepsReserved(p1, reserve, st, s);
    NewJobReserved(p, Plane.Step(p1, reserve, st), s, e, timing);
  }

  lemma FlipUsesReservation(p: Plane.State, s: F.State, w: nat, t: nat, timing: F.Timing, st: Plane.Settings)
    requires F.Enabled(s, F.Flip(w), timing) && t < |p.tenants| && Plane.Inv(p) && Reserved(p, s)
    requires s.messages[s.workers[w].msg].target in p.hosts
    ensures TenantApi.AllEnabled(p, WritesOf(s, F.Flip(w), t, timing), st)
    ensures Reserved(TenantApi.StepAll(p, WritesOf(s, F.Flip(w), t, timing), st), F.Step(s, F.Flip(w), timing))
  {
    var msg := s.messages[s.workers[w].msg];
    var flip := Plane.Flip(t, msg.target, msg.vmNum);
    OneStep(p, flip, st);
    var p', s' := Plane.Step(p, flip, st), F.Step(s, F.Flip(w), timing);
    forall m | 0 <= m < |s.messages|
      ensures Numbers.BelowNext(p', Pair(s.messages[m]))
      ensures s.messages[m].claim !in s'.flips ==> Pair(s.messages[m]) in p'.reserved
    {
      StepKeepsReservations(p, flip, st, Pair(s.messages[m]));
      assert msg.claim in s'.flips;
    }
  }

  lemma TurnKeepsReserved(p: Plane.State, p': Plane.State, s: F.State, s': F.State, turn: Turn, t: nat,
                          timing: F.Timing, st: Plane.Settings)
    requires Jointly(p, p', s, s', turn, t, timing, st) && JobsMatch(p, t, s) && Plane.Inv(p)
    requires Reserved(p, s) && HandsOff(s, turn)
    ensures Reserved(p', s')
  {
    match turn
    case Own(e) =>
      if e.Queue? {
        QueueReserves(p, s, e, t, timing, st);
      } else if e.Flip? {
        FlipUsesReservation(p, s, e.w, t, timing, st);
      } else {
        MarkKeepsReserved(p, s, e, t, timing, st);
      }
    case Fleet(f, at) =>
      FleetKeepsReserved(p, f, st, s);
      OtherStepsKeepJobs(s, Noticed(p, p', t, at), timing);
      SameJobsSameReservations(p', s, s');
  }

  lemma SameJobsSameReservations(p: Plane.State, s: F.State, s': F.State)
    requires Reserved(p, s) && SameJobs(s, s')
    ensures Reserved(p, s')
  {
  }

  lemma MarkKeepsReserved(p: Plane.State, s: F.State, e: F.Event, t: nat, timing: F.Timing, st: Plane.Settings)
    requires F.Enabled(s, e, timing) && !e.Queue? && !e.Flip? && t < |p.tenants| && Plane.Inv(p) && Reserved(p, s)
    ensures TenantApi.AllEnabled(p, WritesOf(s, e, t, timing), st)
    ensures Reserved(TenantApi.StepAll(p, WritesOf(s, e, t, timing), st), F.Step(s, e, timing))
  {
    var trace := WritesOf(s, e, t, timing);
    if trace != [] {
      OneStep(p, trace[0], st);
      FleetKeepsReserved(p, trace[0], st, s);
    }
    OtherStepsKeepJobs(s, e, timing);
    SameJobsSameReservations(TenantApi.StepAll(p, trace, st), s, F.Step(s, e, timing));
  }

  lemma {:induction false} JobsStayReserved(ps: seq<Plane.State>, ss: seq<F.State>, turns: seq<Turn>, t: nat,
                                            timing: F.Timing, st: Plane.Settings, n: nat)
    requires Joint(ps, ss, turns, t, timing, st) && JobsMatch(ps[0], t, ss[0]) && Plane.Inv(ps[0])
    requires Reserved(ps[0], ss[0]) && n <= |turns| && forall i | 0 <= i < n :: HandsOff(ss[i], turns[i])
    ensures Reserved(ps[n], ss[n])
  {
    if n > 0 {
      JobsStayReserved(ps, ss, turns, t, timing, st, n - 1);
      var trace := FleetRuns(ps, ss, turns, t, timing, st, n - 1);
      assert Jointly(ps[n - 1], ps[n - 1 + 1], ss[n - 1], ss[n - 1 + 1], turns[n - 1], t, timing, st);
      TurnKeepsReserved(ps[n - 1], ps[n], ss[n - 1], ss[n], turns[n - 1], t, timing, st);
    }
  }

  /** A queued failover never brings an unreserved number: with safe timeouts and claims made on a clear
      queue, every flip of the protocol finds its number still reserved, on any joint run in which
      nobody else takes it.  Of failovers, only synchronous ones meet the condition of
      `Numbers.VmNumbersAreUnique`. */
  lemma FlipsAreReserved(ps: seq<Plane.State>, ss: seq<F.State>, turns: seq<Turn>, t: nat, timing: F.Timing,
                         st: Plane.Settings, n: nat)
    requires Joint(ps, ss, turns, t, timing, st) && JobsMatch(ps[0], t, ss[0]) && Plane.Inv(ps[0])
    requires F.SafeTiming(timing) && F.Opening(ss[0])
    requires forall i | 0 <= i < |turns| :: HandsOff(ss[i], turns[i])
    requires forall i | 0 <= i < |turns| && turns[i].Own? && turns[i].e.Queue? :: F.Clear(ss[i], timing)
    requires n < |turns| && turns[n].Own? && turns[n].e.Flip?
    ensures var w := turns[n].e.w;
            w < |ss[n].workers| && ss[n].workers[w].msg < |ss[n].messages| &&
            Pair(ss[n].messages[ss[n].workers[w].msg]) in ps[n].reserved
  {
    var w := turns[n].e.w;
    assert Jointly(ps[n], ps[n + 1], ss[n], ss[n + 1], turns[n], t, timing, st);
    JobsStayReserved(ps, ss, turns, t, timing, st, n);
    var events := ProtocolRuns(ps, ss, turns, t, timing, st, n);
    ClearClaims(ss[..n + 1], events, turns, timing, n);
    F.ContinuationKeepsInv(ss[..n + 1], events, timing, n);
    assert F.Executes(ss[n], w, timing);
    F.WorkedOnIsLive(ss[n], timing, w);
  }

  lemma ClearClaims(ss: seq<F.State>, events: seq<F.Event>, turns: seq<Turn>, timing: F.Timing, n: nat)
    requires n <= |turns| && |ss| == n + 1 == |events| + 1
    requires forall i | 0 <= i < n && turns[i].Own? :: events[i] == turns[i].e
    requires forall i | 0 <= i < n && turns[i].Fleet? :: !events[i].Queue?
    requires forall i | 0 <= i < n && turns[i].Own? && turns[i].e.Queue? :: F.Clear(ss[i], timing)
    ensures F.OneOutstanding(ss, events, timing)
  {
    forall i | 0 <= i < |events| && i < |ss| && events[i].Queue? ensures F.Clear(ss[i], timing) {
      var turn := turns[i];
      assert turn.Own? ==> events[i] == turn.e;
    }
  }
}
