/** Live and cold migration: a phased machine driven by sweep ticks.

    One sweep tick, one migrate call and one cancel are each a single step; outcomes of remote
    commands, of the rule repoint and of the public probe are arbitrary oracle values.  `Env`
    steps let every other actor rewrite the hosts table in between. */
module Migration {
  import opened Tables
  import opened HostRows
  import Capacity

  datatype Phase = NoPhase | Snapshot | Restore | Unknown
  datatype Mode = Live | Cold
  datatype Stamp = Missing | Malformed | At(t: int)

  /** The tenant row: placement, and the asynchronous context of a migration. */
  datatype Row = Row(status: TenantStatus, host: Option<HostId>, vmNum: int, vcpu: int, mem: int,
                     target: Option<HostId>, targetVmNum: Option<int>, source: Option<HostId>,
                     snapCmd: Option<string>, restoreCmd: Option<string>, phase: Phase,
                     mode: Option<Mode>, startedAt: Stamp, uri: Option<string>, failed: bool)

  datatype Command =
    | SnapshotOn(host: HostId, mode: Mode, vmNum: int)
    | RestoreOn(host: HostId, mode: Mode, vmNum: int)
    | RelaunchOn(host: HostId, vmNum: int, vcpu: int, mem: int)
    | StopOn(host: HostId, vmNum: int)

  /** `sent` lists the commands submitted since the migration in flight (or the last one) started. */
  datatype State = State(row: Row, hosts: map<HostId, Host>, sent: seq<Command>)

  datatype Poll = InProgress | Success | Failure

  /** What one tick meets: the poll result, the id of a submitted restore command (`None`: not
      submitted), whether the host row could be read, the repoint and the probe verdict. */
  datatype Oracle = Oracle(poll: Poll, restoreId: Option<string>, readable: bool, repointed: bool, reachable: bool)

  datatype Settings = Settings(cfg: Config, hostTg: bool, publicUrl: bool, watchdogMinutes: int)

  datatype Event =
    | Migrate(target: HostId, mode: Mode, snapId: Option<string>, now: int)
    | Tick(now: int, o: Oracle)
    | Cancel
    | Env(hosts: map<HostId, Host>)

  function ClearContext(row: Row): Row {
    row.(target := None, targetVmNum := None, source := None, snapCmd := None, restoreCmd := None,
         phase := NoPhase, mode := None, startedAt := Missing, uri := None)
  }

  /** `_rollback_migration`'s row; a cancel writes the same one. */
  function Reverted(row: Row): Row {
    ClearContext(row).(status := Running, failed := true)
  }

  /** A migrate request passes its checks.  No check looks at the tenant's status. */
  predicate Accepts(s: State, e: Event, st: Settings)
    requires e.Migrate?
  {
    s.row.host.Some? && s.row.host != Some(e.target) && e.target in s.hosts &&
    s.hosts[e.target].status !in {Draining, Gone} &&
    Capacity.HostFits(s.hosts[e.target], s.row.vcpu, s.row.mem, st.cfg) && e.snapId.Some?
  }

  predicate Expired(row: Row, now: int, st: Settings) {
    row.startedAt.At? && now - row.startedAt.t > st.watchdogMinutes * 60
  }

  /** The gates between a successful restore and the flip of ownership. */
  predicate GatesPass(s: State, o: Oracle, st: Settings) {
    (!st.hostTg ==> RowOf(s.hosts, s.row.target.GetOr("")).ip.GetOr("") != "" && o.repointed) &&
    (st.publicUrl ==> o.reachable)
  }

  predicate InFlight(row: Row) {
    row.status == Migrating && row.phase != NoPhase
  }

  function RelaunchAfter(row: Row): seq<Command> {
    if row.mode != Some(Cold) then []
    else match (if row.source.GetOr("") != "" then row.source else row.host)
         case Some(h) => if h != "" then [RelaunchOn(h, row.vmNum, row.vcpu, row.mem)] else []
         case None => []
  }

  function RolledBack(s: State): State {
    s.(row := Reverted(s.row), sent := s.sent + RelaunchAfter(s.row))
  }

  /** This tick moves ownership. */
  predicate Completes(s: State, now: int, o: Oracle, st: Settings) {
    InFlight(s.row) && !Expired(s.row, now, st) && s.row.phase == Restore &&
    s.row.restoreCmd.GetOr("") != "" && o.poll == Success && o.readable && GatesPass(s, o, st)
  }

  /** This tick submits the restore command. */
  predicate Submits(s: State, now: int, o: Oracle, st: Settings) {
    InFlight(s.row) && !Expired(s.row, now, st) && s.row.phase == Snapshot &&
    s.row.snapCmd.GetOr("") != "" && o.poll == Success && o.restoreId.GetOr("") != ""
  }

  /** This tick changes nothing: nothing in flight, or still waiting, or the host row unreadable. */
  predicate Waits(s: State, now: int, o: Oracle, st: Settings) {
    !InFlight(s.row) ||
    (!Expired(s.row, now, st) &&
     ((s.row.phase == Snapshot && s.row.snapCmd.GetOr("") != "" && o.poll == InProgress) ||
      (s.row.phase == Restore && s.row.restoreCmd.GetOr("") != "" &&
       (o.poll == InProgress || (o.poll == Success && !o.readable)))))
  }

  function Completed(s: State): State {
    var row, target, n := s.row, s.row.target.GetOr(""), s.row.targetVmNum.GetOr(1);
    var left := if row.source.GetOr("") == "" then s.hosts
                else s.hosts[row.source.value :=
                               AddLoadOrZero(RowOf(s.hosts, row.source.value), -row.vcpu, -row.mem, -1)];
    State(ClearContext(row).(status := Running, host := Some(target), vmNum := n, failed := false),
          left[target := Bump(RowOf(left, target), n, row.vcpu, row.mem)],
          s.sent + (if row.source.GetOr("") == "" then [] else [StopOn(row.source.value, row.vmNum)]))
  }

  /** `_advance_migration`, by what the tick amounts to; what is not named is a rollback. */
  function TickStep(s: State, now: int, o: Oracle, st: Settings): State {
    if Waits(s, now, o, st) then s
    else if Submits(s, now, o, st) then
      s.(row := s.row.(phase := Restore, restoreCmd := o.restoreId),
         sent := s.sent + [RestoreOn(s.row.target.GetOr(""), s.row.mode.GetOr(Live), s.row.targetVmNum.GetOr(1))])
    else if Completes(s, now, o, st) then Completed(s)
    else RolledBack(s)
  }

  function Step(s: State, e: Event, st: Settings): State {
    match e
    case Migrate(target, mode, snapId, now) =>
      if !Accepts(s, e, st) then s
      else State(s.row.(status := Migrating, target := Some(target),
                        targetVmNum := Some(s.hosts[target].nextVmNum.GetOr(1)), source := s.row.host,
                        snapCmd := snapId, phase := Snapshot, mode := Some(mode), startedAt := At(now),
                        uri := Some("migrations"), failed := false),
                 s.hosts, [SnapshotOn(s.row.host.value, mode, s.row.vmNum)])
    case Tick(now, o) => TickStep(s, now, o, st)
    case Cancel => if s.row.status == Migrating then s.(row := Reverted(s.row)) else s
    case Env(hosts) => s.(hosts := hosts)
  }

  // ---- The handlers ----

  class Sweep {
    var row: Row
    const hosts: HostsTable
    var sent: seq<Command>

    constructor (row: Row, hosts: HostsTable)
      ensures this.row == row && this.hosts == hosts && sent == []
    {
      this.row, this.hosts, sent := row, hosts, [];
    }

    ghost function View(): State
      reads this, hosts
    {
      State(row, hosts.rows, sent)
    }

    /** `_rollback_migration` */
    method RollbackMigration()
      modifies this
      ensures View() == RolledBack(old(View()))
    {
      if row.mode == Some(Cold) {
        var src := if row.source.GetOr("") != "" then row.source else row.host;
        if src.GetOr("") != "" {
          sent := sent + [RelaunchOn(src.value, row.vmNum, row.vcpu, row.mem)];
        }
      }
      row := ClearContext(row.(status := Running, failed := true));
    }

    /** The end of `_advance_migration`: ownership, then the counters of both hosts, then the VM
        left behind. */
    method FlipToTarget()
      modifies this, hosts
      ensures View() == Completed(old(View()))
    {
      var target, vmNum, source := row.target.GetOr(""), row.targetVmNum.GetOr(1), row.source.GetOr("");
      var left := row.vmNum;
      row := ClearContext(row).(host := Some(target), vmNum := vmNum, status := Running, failed := false);
      if source != "" {
        hosts.rows := hosts.rows[source := AddLoadOrZero(RowOf(hosts.rows, source), -row.vcpu, -row.mem, -1)];
      }
      hosts.BumpTargetCounters(target, vmNum, row.vcpu, row.mem);
      if source != "" {
        sent := sent + [StopOn(source, left)];
      }
    }

    /** `_advance_migration` */
    method AdvanceMigration(now: int, o: Oracle, st: Settings)
      modifies this, hosts
      ensures View() == TickStep(old(View()), now, o, st)
    {
      if row.status != Migrating || row.phase == NoPhase {
        return;
      }
      if row.startedAt.At? && now - row.startedAt.t > st.watchdogMinutes * 60 {
        RollbackMigration();
        return;
      }
      if row.phase == Snapshot {
        if row.snapCmd.GetOr("") == "" {
          RollbackMigration();
          return;
        }
        if o.poll == InProgress {
          return;
        }
        if o.poll == Failure || o.restoreId.GetOr("") == "" {
          RollbackMigration();
          return;
        }
        sent := sent + [RestoreOn(row.target.GetOr(""), row.mode.GetOr(Live), row.targetVmNum.GetOr(1))];
        row := row.(phase := Restore, restoreCmd := o.restoreId);
        return;
      }
      if row.phase == Restore {
        if row.restoreCmd.GetOr("") == "" {
          RollbackMigration();
          return;
        }
        if o.poll == InProgress {
          return;
        }
        if o.poll == Failure {
          RollbackMigration();
          return;
        }
        if !o.readable {
          return;
        }
        if !st.hostTg && (RowOf(hosts.rows, row.target.GetOr("")).ip.GetOr("") == "" || !o.repointed) {
          RollbackMigration();
          return;
        }
        if st.publicUrl && !o.reachable {
          RollbackMigration();
          return;
        }
        FlipToTarget();
        return;
      }
      RollbackMigration();
    }

    /** `tenant_action` "migrate" */
    method StartMigration(target: HostId, mode: Mode, snapId: Option<string>, now: int, st: Settings)
      returns (accepted: bool)
      modifies this
      ensures View() == Step(old(View()), Migrate(target, mode, snapId, now), st)
      ensures accepted <==>
                old(row).host.Some? && old(row).host.value != target && target in hosts.rows &&
                hosts.rows[target].status !in {Draining, Gone} && snapId.Some? &&
                Capacity.HostFits(hosts.rows[target], old(row).vcpu, old(row).mem, st.cfg)
    {
      if row.host == Some(target) || target !in hosts.rows {
        return false;
      }
      var t := hosts.rows[target];
      if t.status == Draining || t.status == Gone || !Capacity.HostFits(t, row.vcpu, row.mem, st.cfg) {
        return false;
      }
      // A tenant without a host has no instance to send the command to: the submit fails.
      if row.host.None? || snapId.None? {
        return false;
      }
      sent := [SnapshotOn(row.host.value, mode, row.vmNum)];
      row := row.(status := Migrating, target := Some(target), targetVmNum := Some(t.nextVmNum.GetOr(1)),
                  source := row.host, snapCmd := snapId, phase := Snapshot, mode := Some(mode),
                  startedAt := At(now), uri := Some("migrations"), failed := false);
      accepted := true;
    }

    /** `tenant_action` "cancel-migration" */
    method CancelMigration(ghost st: Settings) returns (done: bool)
      modifies this
      ensures View() == Step(old(View()), Cancel, st) && done == (old(row).status == Migrating)
    {
      if row.status != Migrating {
        return false;
      }
      row := ClearContext(row).(status := Running, failed := true);
      done := true;
    }
  }

  // ---- Runs ----

  ghost predicate Run(states: seq<State>, events: seq<Event>, st: Settings) {
    |states| == |events| + 1 && forall i | 0 <= i < |events| :: states[i + 1] == Step(states[i], events[i], st)
  }

  predicate SamePlace(a: Row, b: Row) {
    a.host == b.host && a.vmNum == b.vmNum
  }

  predicate ContextCleared(row: Row) {
    row.target == None && row.targetVmNum == None && row.source == None && row.snapCmd == None &&
    row.restoreCmd == None && row.phase == NoPhase && row.mode == None && row.startedAt == Missing && row.uri == None
  }

  /** What the migration in flight is: none of this changes while it lasts. */
  predicate SameMigration(a: Row, b: Row) {
    SamePlace(a, b) && a.vcpu == b.vcpu && a.mem == b.mem && a.target == b.target && a.targetVmNum == b.targetVmNum && a.source == b.source &&
    a.snapCmd == b.snapCmd && a.mode == b.mode && a.startedAt == b.startedAt
  }

  predicate TickThat(s: State, e: Event, st: Settings, completes: bool) {
    e.Tick? && if completes then Completes(s, e.now, e.o, st) else Submits(s, e.now, e.o, st)
  }

  /** One step: who may change what. */
  lemma StepFrame(s: State, e: Event, st: Settings)
    ensures var s' := Step(s, e, st);
            (!SamePlace(s.row, s'.row) ==> TickThat(s, e, st, true)) &&
            (s'.hosts != s.hosts && !e.Env? ==> TickThat(s, e, st, true)) &&
            (s.row.status == Migrating && s'.row.status != Migrating ==>
               ContextCleared(s'.row) && s'.row.status == Running &&
               (s'.row.failed <==> !TickThat(s, e, st, true)))
  {
  }

  /** The migration seen at `i` started at `m` with an accepted request; its restore command, if
      it is in the restore phase, was submitted at a tick `j` that saw the snapshot succeed. */
  ghost predicate Explained(states: seq<State>, events: seq<Event>, st: Settings, i: nat, m: nat, j: nat)
    requires Run(states, events, st) && i < |states|
  {
    m < i && events[m].Migrate? && Accepts(states[m], events[m], st) &&
    SameMigration(states[m + 1].row, states[i].row) && SamePlace(states[m].row, states[i].row) &&
    states[m].row.vcpu == states[i].row.vcpu && states[m].row.mem == states[i].row.mem &&
    (states[i].row.phase == Restore ==>
       m < j < i && TickThat(states[j], events[j], st, false) &&
       SameMigration(states[j].row, states[i].row) && states[i].row.restoreCmd == events[j].o.restoreId) &&
    (forall k | m < k <= i ::
       states[k].row.status == Migrating &&
       (states[i].row.phase == Restore ==>
          states[k].row.phase == (if k <= j then Snapshot else Restore)) &&
       (states[i].row.phase != Restore ==> states[k].row.phase == Snapshot))
  }

  lemma StepStaysInFlight(s: State, e: Event, st: Settings)
    requires s.row.status == Migrating && (s.row.phase == Snapshot || s.row.phase == Restore)
    requires !(e.Migrate? && Accepts(s, e, st)) && Step(s, e, st).row.status == Migrating
    ensures var row' := Step(s, e, st).row;
            SameMigration(s.row, row') &&
            (if s.row.phase == Snapshot && TickThat(s, e, st, false)
             then row'.phase == Restore && row'.restoreCmd == e.o.restoreId
             else row'.phase == s.row.phase && row'.restoreCmd == s.row.restoreCmd)
  {
  }

  lemma {:induction false} MigratingIsExplained(states: seq<State>, events: seq<Event>, st: Settings, i: nat)
    returns (m: nat, j: nat)
    requires Run(states, events, st) && i < |states| && states[0].row.status != Migrating
    requires states[i].row.status == Migrating
    ensures Explained(states, events, st, i, m, j)
    ensures states[i].row.phase == Snapshot || states[i].row.phase == Restore
    ensures states[i].row.startedAt.At?
  {
    var s, e := states[i - 1], events[i - 1];
    if e.Migrate? && Accepts(s, e, st) {
      m, j := i - 1, i - 1;
    } else {
      assert s.row.status == Migrating;
      m, j := MigratingIsExplained(states, events, st, i - 1);
      StepStaysInFlight(s, e, st);
      if s.row.phase == Snapshot { j := i - 1; }
    }
  }

  /** Migration safety.  Whenever ownership moves, or a host counter is changed by anything but
      another actor, it is in the tick that sees the restore succeed and all gates pass; the
      restore it sees is the one submitted by an earlier tick of the same migration, after that
      migration's snapshot succeeded; and ownership lands on the target and the number recorded
      when the migration started. */
  lemma OwnershipMovesOnlyAtTheEnd(states: seq<State>, events: seq<Event>, st: Settings, i: nat)
    returns (m: nat, j: nat)
    requires Run(states, events, st) && i < |events| && states[0].row.status != Migrating
    requires !SamePlace(states[i].row, states[i + 1].row) ||
             (states[i].hosts != states[i + 1].hosts && !events[i].Env?)
    ensures events[i].Tick? && events[i].o.poll == Success && GatesPass(states[i], events[i].o, st)
    ensures Explained(states, events, st, i, m, j) && states[i].row.phase == Restore
    ensures TickThat(states[j], events[j], st, false)
    ensures states[i + 1].row.host == Some(events[m].target) && states[i + 1].row.status == Running
    ensures states[i + 1].row.vmNum == states[m].hosts[events[m].target].nextVmNum.GetOr(1)
    ensures ContextCleared(states[i + 1].row)
  {
    StepFrame(states[i], events[i], st);
    m, j := MigratingIsExplained(states, events, st, i);
  }

  /** Leaving `migrating` any other way, by rollback, watchdog or cancel, puts the tenant back
      where it was before the request, with the async context gone.  The status is as before
      exactly when the tenant was running: the request does not look at it. */
  lemma FailedMigrationLeavesPlacement(states: seq<State>, events: seq<Event>, st: Settings, i: nat)
    returns (m: nat, j: nat)
    requires Run(states, events, st) && i < |events| && states[0].row.status != Migrating
    requires states[i].row.status == Migrating && states[i + 1].row.status != Migrating
    requires !TickThat(states[i], events[i], st, true)
    ensures Explained(states, events, st, i, m, j)
    ensures SamePlace(states[m].row, states[i + 1].row) && ContextCleared(states[i + 1].row)
    ensures states[i + 1].row.failed && states[i + 1].row.status == Running
    ensures states[i + 1].row.status == states[m].row.status <==> states[m].row.status == Running
    ensures forall k | m <= k <= i && !events[k].Env? :: states[k + 1].hosts == states[k].hosts
  {
    m, j := MigratingIsExplained(states, events, st, i);
    StepFrame(states[i], events[i], st);
    forall k | m <= k <= i && !events[k].Env? ensures states[k + 1].hosts == states[k].hosts {
      StepFrame(states[k], events[k], st);
      if k < i && TickThat(states[k], events[k], st, true) {
        assert states[k + 1].row.status == Migrating;
      }
    }
  }

  /** A cold migration stops the source VM first.  Of the ways out that leave the tenant there, exactly
      the rollback of a cold migration starts it again, on the host it was on; a cancel starts
      nothing, so a cancelled cold migration ends `running` without a VM. */
  lemma ColdSourceRelaunchedIff(states: seq<State>, events: seq<Event>, st: Settings, i: nat)
    returns (m: nat, j: nat)
    requires Run(states, events, st) && i < |events| && states[0].row.status != Migrating
    requires states[i].row.status == Migrating && states[i + 1].row.status != Migrating
    requires !TickThat(states[i], events[i], st, true)
    ensures Explained(states, events, st, i, m, j) && states[m].row.host.Some?
    ensures var source := states[m].row.host.value;
            states[i + 1].sent == states[i].sent +
              (if !events[i].Cancel? && events[m].mode == Cold && source != "" 
               then [RelaunchOn(source, states[m].row.vmNum, states[m].row.vcpu, states[m].row.mem)] else [])
  {
    m, j := MigratingIsExplained(states, events, st, i);
    StepFrame(states[i], events[i], st);
  }

  // ---- What is sent ----

  /** The commands of a migration up to its end: the snapshot on the source, then the restore on the
      target with the number recorded at the start. */
  function SentSoFar(source: HostId, from: Row, e: Event, n: int, restoring: bool): seq<Command>
    requires e.Migrate?
  {
    if restoring then [SnapshotOn(source, e.mode, from.vmNum), RestoreOn(e.target, e.mode, n)]
    else [SnapshotOn(source, e.mode, from.vmNum)]
  }

  /** The row of a migration in flight against the request that started it: what it records, and what it
      has sent, nothing else. */
  ghost predicate OnItsWay(s: State, from: State, e: Event)
    requires e.Migrate?
  {
    from.row.host.Some? && e.target in from.hosts &&
    var n := from.hosts[e.target].nextVmNum.GetOr(1);
    s.row.target == Some(e.target) && s.row.mode == Some(e.mode) && s.row.source == from.row.host &&
    s.row.targetVmNum == Some(n) && (s.row.phase == Snapshot || s.row.phase == Restore) &&
    s.sent == SentSoFar(from.row.host.value, from.row, e, n, s.row.phase == Restore)
  }

  lemma StartsOnItsWay(s: State, e: Event, st: Settings)
    requires e.Migrate? && Accepts(s, e, st)
    ensures OnItsWay(Step(s, e, st), s, e)
  {
  }

  lemma StaysOnItsWay(s: State, f: Event, st: Settings, from: State, e: Event)
    requires e.Migrate? && OnItsWay(s, from, e) && s.row.status == Migrating
    requires !(f.Migrate? && Accepts(s, f, st)) && Step(s, f, st).row.status == Migrating
    ensures OnItsWay(Step(s, f, st), from, e)
  {
    StepStaysInFlight(s, f, st);
    StepSentInFlight(s, f, st);
    RestoreFollows(from.row.host.value, from.row, e, from.hosts[e.target].nextVmNum.GetOr(1));
  }

  lemma {:induction false} CommandsInFlight(states: seq<State>, events: seq<Event>, st: Settings, i: nat)
    returns (m: nat, j: nat)
    requires Run(states, events, st) && i < |states| && states[0].row.status != Migrating
    requires states[i].row.status == Migrating
    ensures Explained(states, events, st, i, m, j) && OnItsWay(states[i], states[m], events[m])
  {
    var s, e := states[i - 1], events[i - 1];
    if e.Migrate? && Accepts(s, e, st) {
      m, j := i - 1, i - 1;
      StartsOnItsWay(s, e, st);
    } else {
      m, j := CommandsInFlight(states, events, st, i - 1);
      StepStaysInFlight(s, e, st);
      StaysOnItsWay(s, e, st, states[m], events[m]);
      if s.row.phase == Snapshot { j := i - 1; }
    }
  }

  lemma RestoreFollows(source: HostId, from: Row, e: Event, n: int)
    requires e.Migrate?
    ensures SentSoFar(source, from, e, n, true) == SentSoFar(source, from, e, n, false) + [RestoreOn(e.target, e.mode, n)]
  {
  }

  lemma StepSentInFlight(s: State, e: Event, st: Settings)
    requires s.row.status == Migrating && (s.row.phase == Snapshot || s.row.phase == Restore)
    requires s.row.target.Some? && s.row.mode.Some? && s.row.targetVmNum.Some?
    requires !(e.Migrate? && Accepts(s, e, st)) && Step(s, e, st).row.status == Migrating
    ensures Step(s, e, st).sent ==
            if Step(s, e, st).row.phase == s.row.phase then s.sent
            else s.sent + [RestoreOn(s.row.target.value, s.row.mode.value, s.row.targetVmNum.value)]
  {
  }

  /** Over every run, a tick that finds the restore done and every gate open (all conditions spelled
      out) hands the tenant to the target and has then sent, in all, the snapshot on the source, the
      restore on the target with the recorded number, and the stop of the VM left on the source. */
  lemma CompletionHandsOver(states: seq<State>, events: seq<Event>, st: Settings, i: nat) returns (m: nat, j: nat)
    requires Run(states, events, st) && i < |events| && states[0].row.status != Migrating
    requires var s, e := states[i], events[i];
             s.row.status == Migrating && s.row.phase == Restore && s.row.restoreCmd.GetOr("") != "" && e.Tick? &&
             !(s.row.startedAt.At? && e.now - s.row.startedAt.t > st.watchdogMinutes * 60) &&
             e.o.poll == Success && e.o.readable && (!st.publicUrl || e.o.reachable) &&
             (st.hostTg || (e.o.repointed && RowOf(s.hosts, s.row.target.GetOr("")).ip.GetOr("") != ""))
    ensures Explained(states, events, st, i, m, j) && states[m].row.host.Some? && events[m].target in states[m].hosts
    ensures var source, n := states[m].row.host.value, states[m].hosts[events[m].target].nextVmNum.GetOr(1);
            states[i + 1].row.status == Running && states[i + 1].row.host == Some(events[m].target) &&
            states[i + 1].row.vmNum == n && !states[i + 1].row.failed && ContextCleared(states[i + 1].row) &&
            states[i + 1].sent ==
              [SnapshotOn(source, events[m].mode, states[m].row.vmNum), RestoreOn(events[m].target, events[m].mode, n)] +
              (if source != "" then [StopOn(source, states[m].row.vmNum)] else [])
  {
    m, j := CommandsInFlight(states, events, st, i);
  }

  /** One tick of the sweep, case by case, for a migration in flight. */
  lemma TickTable(s: State, now: int, o: Oracle, st: Settings)
    requires s.row.status == Migrating && s.row.phase != NoPhase
    ensures var s' := TickStep(s, now, o, st);
            var late := s.row.startedAt.At? && now - s.row.startedAt.t > st.watchdogMinutes * 60;
            var command := match s.row.phase
                           case Snapshot => s.row.snapCmd.GetOr("")
                           case Restore => s.row.restoreCmd.GetOr("")
                           case _ => "";
            var gates := (st.hostTg || (RowOf(s.hosts, s.row.target.GetOr("")).ip.GetOr("") != "" && o.repointed)) &&
                         (!st.publicUrl || o.reachable);
            if late || command == "" || o.poll == Failure ||
               (o.poll == Success && s.row.phase == Snapshot && o.restoreId.GetOr("") == "") ||
               (o.poll == Success && s.row.phase == Restore && o.readable && !gates)
            then s'.row.status == Running && s'.row.failed && SamePlace(s.row, s'.row) && s'.hosts == s.hosts
            else if o.poll == InProgress || (s.row.phase == Restore && !o.readable) then s' == s
            else if s.row.phase == Snapshot
            then s'.row == s.row.(phase := Restore, restoreCmd := o.restoreId) && s'.hosts == s.hosts
            else s'.row.status == Running && !s'.row.failed && s'.row.host == Some(s.row.target.GetOr(""))
  {
  }

  /** A deleted tenant whose migration is cancelled is running again. */
  lemma CancelResurrects(s: State, e: Event, st: Settings)
    requires s.row.status == TenantStatus.Deleted && e.Migrate? && Accepts(s, e, st)
    ensures Step(Step(s, e, st), Cancel, st).row.status == Running
  {
  }

  function RestoresIn(sent: seq<Command>): nat {
    if sent == [] then 0 else RestoresIn(sent[..|sent| - 1]) + (if sent[|sent| - 1].RestoreOn? then 1 else 0)
  }

  lemma {:induction false} RestoresAppend(sent: seq<Command>, more: seq<Command>)
    ensures RestoresIn(sent + more) == RestoresIn(sent) + RestoresIn(more)
  {
    if more == [] {
      assert sent + more == sent;
    } else {
      assert (sent + more)[..|sent + more| - 1] == sent + more[..|more| - 1];
      RestoresAppend(sent, more[..|more| - 1]);
    }
  }

  lemma RestoresOfOne(c: Command)
    ensures RestoresIn([c]) == (if c.RestoreOn? then 1 else 0)
  {
    assert [c][..0] == [];
  }

  lemma StepSends(s: State, e: Event, st: Settings)
    ensures var s' := Step(s, e, st);
            RestoresIn(s'.sent) ==
              (if e.Migrate? && Accepts(s, e, st) then 0
               else RestoresIn(s.sent) + (if TickThat(s, e, st, false) then 1 else 0))
  {
    match e
    case Migrate(_, mode, _, _) =>
      if Accepts(s, e, st) { RestoresOfOne(SnapshotOn(s.row.host.value, mode, s.row.vmNum)); }
    case Tick(now, o) => TickSends(s, now, o, st);
    case _ =>
  }

  lemma TickSends(s: State, now: int, o: Oracle, st: Settings)
    ensures RestoresIn(TickStep(s, now, o, st).sent) ==
            RestoresIn(s.sent) + (if Submits(s, now, o, st) then 1 else 0)
  {
    var after := TickStep(s, now, o, st).sent;
    assert s.sent + [] == s.sent;
    if after != s.sent {
      var c := after[|s.sent|];
      assert after == s.sent + [c];
      RestoresAppend(s.sent, [c]);
      RestoresOfOne(c);
    }
  }

  /** The restore command is submitted at most once per migration. */
  lemma {:induction false} RestoreSubmittedAtMostOnce(states: seq<State>, events: seq<Event>, st: Settings, i: nat)
    requires Run(states, events, st) && i < |states|
    requires states[0].row.status != Migrating && states[0].sent == []
    ensures RestoresIn(states[i].sent) <= 1
    ensures states[i].row.status == Migrating && states[i].row.phase == Snapshot ==> RestoresIn(states[i].sent) == 0
  {
    if i > 0 {
      RestoreSubmittedAtMostOnce(states, events, st, i - 1);
      StepSends(states[i - 1], events[i - 1], st);
      if states[i - 1].row.status == Migrating {
        var m, j := MigratingIsExplained(states, events, st, i - 1);
      }
    }
  }

  // ---- Termination ----

  /** Whatever the oracles answer, no tick later than the deadline leaves a tenant migrating; and
      nothing but the deadline guarantees that: before it, or without a valid start stamp, there
      are answers that keep the tenant where it is. */
  lemma LateTickEndsIff(s: State, now: int, st: Settings)
    requires s.row.status == Migrating
    requires (s.row.phase == Snapshot && s.row.snapCmd.GetOr("") != "") ||
             (s.row.phase == Restore && s.row.restoreCmd.GetOr("") != "")
    ensures (forall o :: TickStep(s, now, o, st).row.status != Migrating) <==> Expired(s.row, now, st)
  {
    var pending := Oracle(InProgress, None, true, true, true);
    assert !Expired(s.row, now, st) ==> TickStep(s, now, pending, st) == s;
  }

  /** Over a whole run: a migration that started at `t` has left `migrating` after the first tick
      whose clock is past the deadline, phase changes notwithstanding, unless a new request
      restarted it. */
  lemma {:induction false} MigrationTerminates(states: seq<State>, events: seq<Event>, st: Settings,
                                               i: nat, j: nat)
    requires Run(states, events, st) && states[0].row.status != Migrating
    requires i <= j < |events| && states[i].row.status == Migrating
    requires forall k | i <= k <= j :: !(events[k].Migrate? && Accepts(states[k], events[k], st))
    requires events[j].Tick? && states[i].row.startedAt.At?
    requires events[j].now - states[i].row.startedAt.t > st.watchdogMinutes * 60
    ensures states[j + 1].row.status != Migrating
  {
    DeadlineIsFixed(states, events, st, i, j);
    if states[j].row.status == Migrating {
      var m, r := MigratingIsExplained(states, events, st, j);
    }
  }

  lemma {:induction false} DeadlineIsFixed(states: seq<State>, events: seq<Event>, st: Settings, i: nat, j: nat)
    requires Run(states, events, st) && states[0].row.status != Migrating
    requires i <= j < |states| && states[i].row.status == Migrating
    requires forall k | i <= k < j :: !(events[k].Migrate? && Accepts(states[k], events[k], st))
    ensures states[j].row.status == Migrating ==> states[j].row.startedAt == states[i].row.startedAt
  {
    if i < j {
      DeadlineIsFixed(states, events, st, i, j - 1);
      if states[j].row.status == Migrating {
        assert states[j - 1].row.status == Migrating;
        var m, r := MigratingIsExplained(states, events, st, j - 1);
        StepStaysInFlight(states[j - 1], events[j - 1], st);
      }
    }
  }
}
