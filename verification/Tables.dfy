/** Rows of the two DynamoDB tables the control plane works on.

    A DynamoDB row may lack an attribute, and the code treats a missing attribute
    in three different ways: Python reads it with a default, `if_not_exists`
    gives it a default, and a plain comparison or addition on it fails.  The
    attributes concerned are therefore of type `Option`. */
module Tables {

  datatype Option<+T> = None | Some(value: T) {
    function GetOr(default: T): T {
      match this
      case Some(v) => v
      case None => default
    }
  }

  type HostId = string
  type TenantId = string

  datatype HostStatus = Unset | Active | Idle | Draining | Gone

  /** A row of the hosts table.  Times are integer seconds. */
  datatype Host = Host(
    id: HostId, status: HostStatus, az: string, ip: Option<string>,
    totalVcpu: Option<int>, totalMem: Option<int>,
    usedVcpu: Option<int>, usedMem: Option<int>, vmCount: Option<int>,
    nextVmNum: Option<int>, idleSince: Option<int>, lastSeen: Option<int>)

  datatype TenantStatus =
    | Pending | Creating | Running | Stopped | Migrating
    | FailoverQueued | FailoverRecovering | FailoverFailed | FailoverFailedPartial | FailoverBlocked
    | Deleted

  /** `UpdateItem` on a key that is not in the table starts from a bare row. */
  function BareHost(id: HostId): Host {
    Host(id, Unset, "", None, None, None, None, None, None, None, None, None)
  }

  function RowOf(rows: map<HostId, Host>, id: HostId): Host {
    if id in rows then rows[id] else BareHost(id)
  }

  /** What both registration paths write: every counter is present. */
  predicate Published(h: Host) {
    h.totalVcpu.Some? && h.totalMem.Some? && h.usedVcpu.Some? && h.usedMem.Some? &&
    h.vmCount.Some? && h.nextVmNum.Some?
  }

  /** Overcommit ratios and the per-host VM ceiling; `maxVms == 0` switches the ceiling off. */
  datatype Config = Config(cpuRatio: real, memRatio: real, maxVms: int)

  /** Python's `int()` truncates towards zero. */
  function Trunc(x: real): int {
    if x >= 0.0 then x.Floor else -((-x).Floor)
  }

  function Allocatable(total: int, ratio: real): int {
    Trunc(total as real * ratio)
  }

  /** The capacity booked on a published row stays within what may be booked. */
  predicate Within(h: Host, cfg: Config) {
    Published(h) &&
    h.usedVcpu.value <= Allocatable(h.totalVcpu.value, cfg.cpuRatio) &&
    h.usedMem.value <= Allocatable(h.totalMem.value, cfg.memRatio) &&
    (cfg.maxVms != 0 ==> h.vmCount.value <= cfg.maxVms)
  }
}
