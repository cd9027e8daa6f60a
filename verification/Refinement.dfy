/** The movement protocols of one tenant, seen from the fleet.

    A run of `Migration`, with the rest of the fleet taking steps of `Plane` in between, is a run of
    `Plane`; an attempt of `Pipeline` is a step of it.  What `Ledger` and `Numbers` prove of every
    run therefore covers these handlers as they are written out there. */
module Refinement {
  import opened Tables
  import Plane
  import TenantApi
  import HostRows
  import M = Migration
  import F = Failover
  import Pipeline

  /** The tenant's row in the fleet is the machine's, its move the recorded context. */
  ghost predicate Matches(p: Plane.State, t: nat, m: M.State) {
    t < |p.tenants| && p.hosts == m.hosts &&
    var x, row := p.tenants[t], m.row;
    x.status == row.status && x.host == row.host && x.vmNum == row.vmNum && x.vcpu == row.vcpu &&
    x.mem == row.mem && row.host != Some("") &&
    (row.status == Migrating ==>
       row.source.GetOr("") != "" && row.target.GetOr("") != "" && row.targetVmNum.Some? && row.phase != M.NoPhase &&
       x.move == Some(Plane.Move(row.source.value, row.target.value, row.targetVmNum.value)))
  }

  /** The fleet's event behind a step of the machine, if it writes anything the fleet sees. */
  function EventOf(m: M.State, e: M.Event, t: nat, st: M.Settings): Option<Plane.Event> {
    match e
    case Migrate(target, _, _, _) => if M.Accepts(m, e, st) then Some(Plane.StartMove(t, target)) else None
    case Tick(now, o) =>
      if M.Waits(m, now, o, st) || M.Submits(m, now, o, st) then None
      else if M.Completes(m, now, o, st) then Some(Plane.FinishMove(t))
      else Some(Plane.SetStatus(t, Running))
    case Cancel => if m.row.status == Migrating then Some(Plane.SetStatus(t, Running)) else None
    case Env(_) => None
  }

  /** Simulation: a migrate request is a `StartMove`, a completing tick a `FinishMove` with the very
      counters and number, a rollback, timeout or cancel a status change that touches no host. */
  lemma StepIsPlaneStep(p: Plane.State, t: nat, m: M.State, e: M.Event, mst: M.Settings, st: Plane.Settings)
    requires Matches(p, t, m) && mst.cfg == st.cfg && !e.Env? && (e.Migrate? ==> e.target != "")
    ensures var m', pe := M.Step(m, e, mst), EventOf(m, e, t, mst);
            match pe
            case None => Matches(p, t, m')
            case Some(f) => Plane.Enabled(p, f, st) && Matches(Plane.Step(p, f, st), t, m')
  {
    match e
    case Migrate(target, _, _, _) => StartIsStartMove(p, t, m, e, mst, st);
    case Tick(now, o) => TickIsPlaneStep(p, t, m, now, o, mst, st);
    case Cancel =>
  }

  lemma StartIsStartMove(p: Plane.State, t: nat, m: M.State, e: M.Event, mst: M.Settings, st: Plane.Settings)
    requires Matches(p, t, m) && mst.cfg == st.cfg && e.Migrate? && e.target != ""
    ensures if M.Accepts(m, e, mst)
            then Plane.Enabled(p, Plane.StartMove(t, e.target), st) &&
                 Matches(Plane.Step(p, Plane.StartMove(t, e.target), st), t, M.Step(m, e, mst))
            else Matches(p, t, M.Step(m, e, mst))
  {
  }

  lemma TickIsPlaneStep(p: Plane.State, t: nat, m: M.State, now: int, o: M.Oracle, mst: M.Settings,
                        st: Plane.Settings)
    requires Matches(p, t, m) && mst.cfg == st.cfg
    ensures var m' := M.TickStep(m, now, o, mst);
            match EventOf(m, M.Tick(now, o), t, mst)
            case None => Matches(p, t, m')
            case Some(f) => Plane.Enabled(p, f, st) && Matches(Plane.Step(p, f, st), t, m')
  {
    if M.Completes(m, now, o, mst) {
      FinishIsFinishMove(p, t, m, st);
    }
  }

  lemma FinishIsFinishMove(p: Plane.State, t: nat, m: M.State, st: Plane.Settings)
    requires Matches(p, t, m) && m.row.status == Migrating
    ensures Plane.Enabled(p, Plane.FinishMove(t), st)
    ensures Matches(Plane.Step(p, Plane.FinishMove(t), st), t, M.Completed(m))
  {
  }

  // ---- Whole runs ----

  /** One step of the system: the machine's own, or anybody's step on the rest of the fleet. */
  datatype Move = Own(e: M.Event) | Fleet(f: Plane.Event)

  /** Fleet and machine step together; a fleet step shows the machine new host rows. */
  ghost predicate Together(p: Plane.State, p': Plane.State, m: M.State, m': M.State, move: Move, t: nat,
                           mst: M.Settings, st: Plane.Settings) {
    match move
    case Own(e) =>
      !e.Env? && (e.Migrate? ==> e.target != "") && m' == M.Step(m, e, mst) &&
      var f := EventOf(m, e, t, mst);
      p' == if f.Some? && Plane.Enabled(p, f.value, st) then Plane.Step(p, f.value, st) else p
    case Fleet(f) =>
      Plane.Enabled(p, f, st) && p' == Plane.Step(p, f, st) && m' == M.Step(m, M.Env(p'.hosts), mst) &&
      (t < |p.tenants| ==> t < |p'.tenants| && p'.tenants[t] == p.tenants[t])
  }

  ghost predicate Interleaved(ps: seq<Plane.State>, ms: seq<M.State>, moves: seq<Move>, t: nat,
                              mst: M.Settings, st: Plane.Settings) {
    |ps| == |ms| == |moves| + 1 &&
    forall i | 0 <= i < |moves| :: Together(ps[i], ps[i + 1], ms[i], ms[i + 1], moves[i], t, mst, st)
  }

  /** What the machine sees of a move. */
  function Seen(move: Move, after: Plane.State): M.Event {
    match move
    case Own(e) => e
    case Fleet(_) => M.Env(after.hosts)
  }

  lemma SeenStep(p: Plane.State, p': Plane.State, m: M.State, m': M.State, move: Move, t: nat,
                 mst: M.Settings, st: Plane.Settings)
    requires Together(p, p', m, m', move, t, mst, st)
    ensures m' == M.Step(m, Seen(move, p'), mst)
  {
  }

  /** The machine's side of an interleaved run is a run of `Migration`. */
  lemma MachineRuns(ps: seq<Plane.State>, ms: seq<M.State>, moves: seq<Move>, t: nat, mst: M.Settings,
                    st: Plane.Settings) returns (events: seq<M.Event>)
    requires Interleaved(ps, ms, moves, t, mst, st)
    ensures M.Run(ms, events, mst)
  {
    events := seq(|moves|, i requires 0 <= i < |moves| => Seen(moves[i], ps[i + 1]));
    forall i | 0 <= i < |events| ensures ms[i + 1] == M.Step(ms[i], events[i], mst) {
      SeenStep(ps[i], ps[i + 1], ms[i], ms[i + 1], moves[i], t, mst, st);
    }
  }

  /** One move keeps the match, and the fleet takes at most one legal step. */
  lemma MoveIsPlaneStep(p: Plane.State, p': Plane.State, m: M.State, m': M.State, move: Move, t: nat,
                        mst: M.Settings, st: Plane.Settings) returns (f: Option<Plane.Event>)
    requires Together(p, p', m, m', move, t, mst, st) && Matches(p, t, m) && mst.cfg == st.cfg
    ensures Matches(p', t, m')
    ensures if f.Some? then Plane.Enabled(p, f.value, st) && p' == Plane.Step(p, f.value, st) else p' == p
  {
    match move
    case Own(e) =>
      StepIsPlaneStep(p, t, m, e, mst, st);
      f := EventOf(m, e, t, mst);
    case Fleet(g) => f := Some(g);
  }

  /** The fleet's side is a run of `Plane`: over any interleaving of the machine with any steps of the
      rest of the fleet, tenant row and counters are those of a legal trace. */
  lemma {:induction false} FleetRuns(ps: seq<Plane.State>, ms: seq<M.State>, moves: seq<Move>, t: nat,
                                     mst: M.Settings, st: Plane.Settings, n: nat) returns (trace: seq<Plane.Event>)
    requires Interleaved(ps, ms, moves, t, mst, st) && Matches(ps[0], t, ms[0]) && mst.cfg == st.cfg
    requires n <= |moves|
    ensures Matches(ps[n], t, ms[n])
    ensures TenantApi.Legal(ps[0], trace, st) && TenantApi.After(ps[0], trace, st) == ps[n]
  {
    if n == 0 {
      trace := [];
    } else {
      trace := FleetRuns(ps, ms, moves, t, mst, st, n - 1);
      assert Together(ps[n - 1], ps[n - 1 + 1], ms[n - 1], ms[n - 1 + 1], moves[n - 1], t, mst, st);
      var f := MoveIsPlaneStep(ps[n - 1], ps[n], ms[n - 1], ms[n], moves[n - 1], t, mst, st);
      if f.Some? {
        TenantApi.Extend(ps[0], trace, f.value, st);
        trace := trace + [f.value];
      }
    }
  }

  // ---- Failover attempts ----

  ghost predicate RowMatches(p: Plane.State, t: nat, row: F.Row) {
    t < |p.tenants| && p.tenants[t].status == row.status && p.tenants[t].host == row.host &&
    p.tenants[t].vmNum == row.vmNum
  }

  /** An attempt, its number reserved or not, is a `Flip` when all gates pass, a status change when the
      failure is recorded, and nothing otherwise; host rows and tenant row are the ones `Plane` has. */
  lemma AttemptIsPlaneStep(p: Plane.State, t: nat, row: F.Row, target: Host, n: int, o: Pipeline.Oracle,
                           pst: Pipeline.Settings, st: Plane.Settings) returns (f: Option<Plane.Event>)
    requires RowMatches(p, t, row) && target.id in p.hosts
    ensures f.Some? ==> Plane.Enabled(p, f.value, st)
    ensures var p' := if f.Some? then Plane.Step(p, f.value, st) else p;
            RowMatches(p', t, Pipeline.RowAfter(row, target, n, o, pst)) &&
            p'.hosts == Pipeline.HostsAfter(p.hosts, target, n, p.tenants[t].vcpu, p.tenants[t].mem, o, pst)
  {
    var fault := Pipeline.Stops(target, o, pst);
    f := if fault.None? then Some(Plane.Flip(t, target.id, n))
         else if o.failWrite then Some(Plane.SetStatus(t, Pipeline.FailureStatus(fault.value, target.id)))
         else None;
  }

  /** The number a job carries is reserved by the fleet's `ReserveFor`. */
  lemma EnqueueIsReserveFor(p: Plane.State, target: HostId, st: Plane.Settings)
    requires target in p.hosts
    ensures var (row, n) := HostRows.ReserveNumber(RowOf(p.hosts, target));
            Plane.Enabled(p, Plane.ReserveFor(target), st) &&
            var p' := Plane.Step(p, Plane.ReserveFor(target), st);
            p'.hosts == p.hosts[target := row] && (target, n) in p'.reserved
  {
  }
}
