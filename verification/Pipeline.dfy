/** Failover of one tenant, handler by handler: the detector's enqueue, the synchronous path, the
    worker, and the launch / verify / repoint / flip pipeline they share.  Outcomes of remote
    calls are oracle values, texts of their errors included. */
module Pipeline {
  import opened Tables
  import opened HostRows
  import opened Failover
  import Text

  datatype Call = Fine | Raised(text: string)

  /** What one attempt meets: the submission of the launch command, the wait for it, the gates.  A
      failing VM gate carries the text of the launch command's error. */
  datatype Oracle = Oracle(launch: Call, wait: Call, vmGate: Call, repoint: Call, reachable: bool,
                           flipWrite: Call, failWrite: bool)

  datatype Settings = Settings(listener: bool, hostTg: bool, publicUrl: bool)

  datatype Fault = LaunchFault(text: string) | VmFault(text: string) | NoAddress | RepointFault(text: string)
                 | Unreachable | WriteFault(text: string)

  predicate NeedsRepoint(st: Settings) { st.listener && !st.hostTg }

  /** The gate at which an attempt stops; `None` when it reaches the end. */
  function Stops(target: Host, o: Oracle, st: Settings): Option<Fault> {
    if o.launch.Raised? then Some(LaunchFault(o.launch.text))
    else if o.wait.Raised? then Some(LaunchFault(o.wait.text))
    else if o.vmGate.Raised? then Some(VmFault(o.vmGate.text))
    else if NeedsRepoint(st) && target.ip.GetOr("") == "" then Some(NoAddress)
    else if NeedsRepoint(st) && o.repoint.Raised? then Some(RepointFault(o.repoint.text))
    else if st.publicUrl && !o.reachable then Some(Unreachable)
    else if o.flipWrite.Raised? then Some(WriteFault(o.flipWrite.text))
    else None
  }

  // ---- The failure status ----

  const REPOINT_FAILED := "ALB repoint failed"
  const NOT_REACHABLE := "dashboard not reachable"
  const NO_ADDRESS := "no private_ip"

  /** The text of the exception that ends an attempt, cut down to what the classification can see: the
      gates' own wording around the phrases it looks for.  `target` and the texts of remote errors
      are free. */
  function ErrorText(f: Fault, target: HostId): string {
    match f
    case LaunchFault(text) => text
    case VmFault(text) => "VM verify gate failed on target " + target + " SSM err: " + text
    case NoAddress => "target host " + target + " has " + NO_ADDRESS + " in DDB"
    case RepointFault(text) => "" + REPOINT_FAILED + (": " + text)
    case Unreachable => "" + NOT_REACHABLE + " via ALB"
    case WriteFault(text) => text
  }

  predicate Mentions(text: string) {
    Text.Contains(text, REPOINT_FAILED) || Text.Contains(text, NOT_REACHABLE) || Text.Contains(text, NO_ADDRESS)
  }

  /** The failure status is chosen by looking for three phrases in the error text. */
  function FailureStatus(f: Fault, target: HostId): TenantStatus {
    if Mentions(ErrorText(f, target)) then FailoverFailedPartial else FailoverFailed
  }

  // ---- What an attempt writes ----

  function RowAfter(row: Row, target: Host, vmNum: int, o: Oracle, st: Settings): Row {
    match Stops(target, o, st)
    case None => Flipped(row, target.id, vmNum)
    case Some(f) => if o.failWrite then row.(status := FailureStatus(f, target.id)) else row
  }

  function HostsAfter(rows: map<HostId, Host>, target: Host, vmNum: int, vcpu: int, mem: int, o: Oracle,
                      st: Settings): map<HostId, Host> {
    if Stops(target, o, st).Some? then rows
    else rows[target.id := Bump(RowOf(rows, target.id), vmNum, if vcpu == 0 then 2 else vcpu,
                                if mem == 0 then 4096 else mem)]
  }

  datatype Job = Job(target: HostId, vmNum: int, backupKey: string)
  /** A submitted launch command. */
  datatype Launch = Launch(host: HostId, vmNum: int, backupKey: string)
  datatype Outcome = Enqueued | Blocked | NotEnqueued

  class Handlers {
    var row: Row
    const hosts: HostsTable
    var jobs: seq<Job>
    var launches: seq<Launch>

    constructor (row: Row, hosts: HostsTable)
      ensures this.row == row && this.hosts == hosts && jobs == [] && launches == [] && Keyed()
    {
      this.row, this.hosts, jobs, launches := row, hosts, [], [];
    }

    /** Every job and every launch so far names a backup. */
    ghost predicate Keyed()
      reads this
    {
      (forall j <- jobs :: j.backupKey != "") && (forall l <- launches :: l.backupKey != "")
    }

    /** `_execute_failover` */
    method ExecuteFailover(target: Host, backupKey: string, vmNum: int, vcpu: int, mem: int, o: Oracle, st: Settings)
      returns (ok: bool)
      requires Keyed() && backupKey != ""
      modifies this`row, this`launches, hosts
      ensures Keyed()
      ensures ok <==> Stops(target, o, st).None?
      ensures row == RowAfter(old(row), target, vmNum, o, st)
      ensures hosts.rows == HostsAfter(old(hosts.rows), target, vmNum, vcpu, mem, o, st)
      ensures launches == old(launches) + (if o.launch.Fine? then [Launch(target.id, vmNum, backupKey)] else [])
    {
      var fault: Fault;
      if o.launch.Fine? {
        launches := launches + [Launch(target.id, vmNum, backupKey)];
        if o.wait.Raised? {
          fault := LaunchFault(o.wait.text);
        } else if o.vmGate.Raised? {
          fault := VmFault(o.vmGate.text);
        } else if st.listener && !st.hostTg && target.ip.GetOr("") == "" {
          fault := NoAddress;
        } else if st.listener && !st.hostTg && o.repoint.Raised? {
          fault := RepointFault(o.repoint.text);
        } else if st.publicUrl && !o.reachable {
          fault := Unreachable;
        } else if o.flipWrite.Raised? {
          fault := WriteFault(o.flipWrite.text);
        } else {
          row := row.(host := Some(target.id), vmNum := vmNum, status := Running);
          hosts.BumpTargetCounters(target.id, vmNum, if vcpu == 0 then 2 else vcpu, if mem == 0 then 4096 else mem);
          return true;
        }
      } else {
        fault := LaunchFault(o.launch.text);
      }
      if o.failWrite {
        row := row.(status := FailureStatus(fault, target.id));
      }
      ok := false;
    }

    /** `_enqueue_failover`: `seen` is the tenant as the detector's scan returned it. */
    method EnqueueFailover(seen: Row, target: HostId, backupKey: Option<string>, now: int, sendOk: bool,
                           blockedWrite: bool) returns (outcome: Outcome)
      requires Keyed()
      modifies this`row, this`jobs, hosts
      ensures Keyed()
      ensures outcome == Blocked <==> backupKey.GetOr("") == ""
      ensures outcome == Blocked ==> jobs == old(jobs) && hosts.rows == old(hosts.rows)
      ensures outcome == Blocked ==>
                row == (if blockedWrite then old(row).(status := FailoverBlocked) else old(row))
      ensures outcome != Blocked && !(old(row).host == seen.host && old(row).status == Running) ==>
                outcome == NotEnqueued && row == old(row) && jobs == old(jobs) && hosts.rows == old(hosts.rows)
      ensures outcome != Blocked && old(row).host == seen.host && old(row).status == Running ==>
                row == Queued(old(row), now) &&
                var (reserved, n) := ReserveNumber(RowOf(old(hosts.rows), target));
                hosts.rows == old(hosts.rows)[target := reserved] &&
                (outcome == Enqueued <==> sendOk) &&
                jobs == old(jobs) + (if sendOk then [Job(target, n, backupKey.value)] else [])
    {
      if backupKey.GetOr("") == "" {
        if blockedWrite {
          row := row.(status := FailoverBlocked);
        }
        return Blocked;
      }
      if row.host != seen.host || row.status != Running {
        return NotEnqueued;
      }
      row := row.(failoverAt := now, status := FailoverQueued);
      var n := hosts.ReserveTargetVmNum(target);
      if !sendOk {
        return NotEnqueued;
      }
      jobs := jobs + [Job(target, n, backupKey.value)];
      outcome := Enqueued;
    }

    /** `_failover_tenant_to_host`, the synchronous path: its claim checks the host only. */
    method FailoverTenantToHost(seen: Row, target: Host, backupKey: Option<string>, vcpu: int, mem: int, now: int,
                                blockedWrite: bool, o: Oracle, st: Settings)
      returns (recovered: bool, blocked: bool)
      requires Keyed()
      modifies this`row, this`launches, hosts
      ensures Keyed() && !(recovered && blocked)
      ensures blocked <==> backupKey.GetOr("") == ""
      ensures recovered <==> !blocked && old(row).host == seen.host && Stops(target, o, st).None?
      ensures blocked || old(row).host != seen.host ==>
                launches == old(launches) && hosts.rows == old(hosts.rows) &&
                row == (if blocked && blockedWrite then old(row).(status := FailoverBlocked) else old(row))
      ensures !blocked && old(row).host == seen.host ==>
                var n := if target.nextVmNum.GetOr(0) == 0 then 1 else target.nextVmNum.value;
                row == RowAfter(Claimed(old(row), now), target, n, o, st) &&
                hosts.rows == HostsAfter(old(hosts.rows), target, n, vcpu, mem, o, st) &&
                launches == old(launches) + (if o.launch.Fine? then [Launch(target.id, n, backupKey.value)] else [])
    {
      recovered, blocked := false, false;
      var next := target.nextVmNum.GetOr(0);
      var vmNum := if next == 0 then 1 else next;
      if backupKey.GetOr("") == "" {
        if blockedWrite {
          row := row.(status := FailoverBlocked);
        }
        blocked := true;
        return;
      }
      if row.host != seen.host {
        return;
      }
      row := row.(failoverAt := now, status := FailoverRecovering);
      recovered := ExecuteFailover(target, backupKey.value, vmNum, vcpu, mem, o, st);
    }

    /** `_claim` of the worker */
    method ClaimRow(now: int) returns (held: bool)
      modifies this`row
      ensures held <==> old(row).status == FailoverQueued || old(row).status == FailoverRecovering
      ensures row == if held then old(row).(status := FailoverRecovering, failoverAt := now) else old(row)
    {
      if row.status != FailoverQueued && row.status != FailoverRecovering {
        return false;
      }
      row := row.(status := FailoverRecovering, failoverAt := now);
      held := true;
    }

    /** `_process_record`: a job consumed by a worker.  `found` says whether the tenant row is still
        there, `target` is the target's row read after the claim. */
    method ProcessRecord(job: Job, found: bool, target: Option<Host>, vcpu: int, mem: int, now: int,
                         o: Oracle, st: Settings) returns (flipped: bool)
      requires Keyed() && job in jobs && (target.Some? ==> target.value.id == job.target)
      modifies this`row, this`launches, hosts
      ensures Keyed()
      ensures flipped <==> found && Claimable(old(row)) && target.Some? && Stops(target.value, o, st).None?
      ensures !found || !Claimable(old(row)) ==>
                row == old(row) && hosts.rows == old(hosts.rows) && launches == old(launches)
      ensures found && Claimable(old(row)) && target.None? ==>
                row == Claimed(old(row), now).(status := FailoverFailed) && hosts.rows == old(hosts.rows) &&
                launches == old(launches)
      ensures found && Claimable(old(row)) && target.Some? ==>
                row == RowAfter(Claimed(old(row), now), target.value, job.vmNum, o, st) &&
                hosts.rows == HostsAfter(old(hosts.rows), target.value, job.vmNum, vcpu, mem, o, st) &&
                launches == old(launches) +
                            (if o.launch.Fine? then [Launch(job.target, job.vmNum, job.backupKey)] else [])
    {
      if !found {
        return false;
      }
      var held := ClaimRow(now);
      if !held {
        return false;
      }
      if target.None? {
        row := row.(status := FailoverFailed);
        return false;
      }
      flipped := ExecuteFailover(target.value, job.backupKey, job.vmNum, vcpu, mem, o, st);
    }
  }

  /** Ownership flips exactly when every gate that applies passed. */
  lemma FlipsIffGatesPass(target: Host, o: Oracle, st: Settings)
    ensures Stops(target, o, st).None? <==>
              o.launch.Fine? && o.wait.Fine? && o.vmGate.Fine? && o.flipWrite.Fine? &&
              (st.listener && !st.hostTg ==> target.ip.GetOr("") != "" && o.repoint.Fine?) &&
              (st.publicUrl ==> o.reachable)
  {
  }

  /** Otherwise owner and number stay, and a status that is written is one of the two failure states. */
  lemma FailureKeepsPlacement(row: Row, target: Host, vmNum: int, o: Oracle, st: Settings)
    requires Stops(target, o, st).Some?
    ensures var row' := RowAfter(row, target, vmNum, o, st);
            row'.host == row.host && row'.vmNum == row.vmNum &&
            (o.failWrite ==> row'.status == FailoverFailed || row'.status == FailoverFailedPartial)
  {
  }

  /** A fault behind the VM gate is always recognised. */
  lemma PublicFaultsMention(f: Fault, target: HostId)
    requires f.NoAddress? || f.RepointFault? || f.Unreachable?
    ensures Mentions(ErrorText(f, target))
  {
    match f
    case NoAddress => Text.ContainsMiddle("target host " + target + " has ", NO_ADDRESS, " in DDB");
    case RepointFault(text) => Text.ContainsMiddle("", REPOINT_FAILED, ": " + text);
    case Unreachable => Text.ContainsMiddle("", NOT_REACHABLE, " via ALB");
    case _ =>
  }

  /** `failover_failed_partial` means "VM verified, public path not" exactly unless the text of a
      failed launch, VM gate or final write happens to contain one of the three phrases. */
  lemma PartialMeansVerifiedIff(target: Host, o: Oracle, st: Settings)
    requires Stops(target, o, st).Some?
    ensures var f := Stops(target, o, st).value;
            (FailureStatus(f, target.id) == FailoverFailedPartial <==>
               o.launch.Fine? && o.wait.Fine? && o.vmGate.Fine? && !f.WriteFault?) <==>
            !((f.LaunchFault? || f.VmFault? || f.WriteFault?) && Mentions(ErrorText(f, target.id)))
  {
    var f := Stops(target, o, st).value;
    if f.NoAddress? || f.RepointFault? || f.Unreachable? {
      PublicFaultsMention(f, target.id);
    }
  }

  /** It can happen: any launch error that quotes a phrase is reported as a verified VM. */
  lemma PartialWithoutVm(target: Host, before: string, after: string, o: Oracle, st: Settings)
    requires o.launch == Call.Raised(before + NO_ADDRESS + after)
    ensures Stops(target, o, st).Some?
    ensures FailureStatus(Stops(target, o, st).value, target.id) == FailoverFailedPartial
  {
    Text.ContainsMiddle(before, NO_ADDRESS, after);
  }
}
