/** The conditional writes on one host row, and the table that performs them. */
module HostRows {
  import opened Tables

  /** A DynamoDB comparison is false when the attribute is missing. */
  predicate AtMost(attr: Option<int>, bound: int) {
    attr.Some? && attr.value <= bound
  }

  datatype Reservation = Booked(row: Host, vmNum: int) | Refused | Raised

  /** `_reserve_host_slot`: `seen` is the (possibly stale) row the caller scanned,
      `row` is the row as it is when the conditional update runs. */
  function Reserve(row: Host, seen: Host, vcpu: int, mem: int, cfg: Config): Reservation {
    if seen.totalVcpu.None? || seen.totalMem.None? then Raised
    else if !AtMost(row.usedVcpu, Allocatable(seen.totalVcpu.value, cfg.cpuRatio) - vcpu) ||
            !AtMost(row.usedMem, Allocatable(seen.totalMem.value, cfg.memRatio) - mem) ||
            (cfg.maxVms != 0 && !AtMost(row.vmCount, cfg.maxVms - 1)) then Refused
    else if row.vmCount.None? || row.nextVmNum.None? then Raised
    else Booked(row.(usedVcpu := Some(row.usedVcpu.value + vcpu),
                     usedMem := Some(row.usedMem.value + mem),
                     vmCount := Some(row.vmCount.value + 1),
                     nextVmNum := Some(row.nextVmNum.value + 1),
                     status := Active, idleSince := None),
                row.nextVmNum.value)
  }

  /** Adds to the three load counters; `None` when an attribute is missing, since
      DynamoDB rejects arithmetic on it. */
  function AddLoad(row: Host, vcpu: int, mem: int, vms: int): Option<Host> {
    if row.usedVcpu.None? || row.usedMem.None? || row.vmCount.None? then None
    else Some(row.(usedVcpu := Some(row.usedVcpu.value + vcpu),
                   usedMem := Some(row.usedMem.value + mem),
                   vmCount := Some(row.vmCount.value + vms)))
  }

  /** The same with `if_not_exists(attr, 0)`: never fails. */
  function AddLoadOrZero(row: Host, vcpu: int, mem: int, vms: int): Host {
    row.(usedVcpu := Some(row.usedVcpu.GetOr(0) + vcpu),
         usedMem := Some(row.usedMem.GetOr(0) + mem),
         vmCount := Some(row.vmCount.GetOr(0) + vms))
  }

  /** Raises `next_vm_num` to `n`, never lowers it. */
  function RaiseNext(row: Host, n: int): Host {
    if row.nextVmNum.None? || row.nextVmNum.value < n then row.(nextVmNum := Some(n)) else row
  }

  /** `_bump_target_counters` */
  function Bump(row: Host, vmNum: int, vcpu: int, mem: int): Host {
    RaiseNext(AddLoadOrZero(row, vcpu, mem, 1), vmNum + 1)
  }

  /** `_reserve_target_vm_num`: the row after and the number handed out. */
  function ReserveNumber(row: Host): (Host, int) {
    (row.(nextVmNum := Some(row.nextVmNum.GetOr(1) + 1)), row.nextVmNum.GetOr(1))
  }

  /** `row'` carries one VM of the given size less than `row`, and differs in nothing else. */
  ghost predicate Released(row: Host, row': Host, vcpu: int, mem: int) {
    row.usedVcpu.Some? && row.usedMem.Some? && row.vmCount.Some? &&
    row'.usedVcpu == Some(row.usedVcpu.value - vcpu) && row'.usedMem == Some(row.usedMem.value - mem) &&
    row'.vmCount == Some(row.vmCount.value - 1) &&
    row'.(usedVcpu := row.usedVcpu, usedMem := row.usedMem, vmCount := row.vmCount) == row
  }

  datatype Slot = Got(vmNum: int) | Lost | Failed

  /** The hosts table.  Each method is one handler's sequence of table calls. */
  class HostsTable {
    var rows: map<HostId, Host>

    constructor ()
      ensures rows == map[]
    {
      rows := map[];
    }

    /** `_reserve_host_slot` */
    method ReserveHostSlot(seen: Host, vcpu: int, mem: int, cfg: Config) returns (slot: Slot)
      modifies this
      ensures match Reserve(RowOf(old(rows), seen.id), seen, vcpu, mem, cfg)
              case Booked(row, n) => slot == Got(n) && rows == old(rows)[seen.id := row]
              case Refused => slot == Lost && rows == old(rows)
              case Raised => slot == Failed && rows == old(rows)
    {
      if seen.totalVcpu.None? || seen.totalMem.None? {
        return Failed;
      }
      var maxUsedV := Allocatable(seen.totalVcpu.value, cfg.cpuRatio) - vcpu;
      var maxUsedM := Allocatable(seen.totalMem.value, cfg.memRatio) - mem;
      var row := RowOf(rows, seen.id);
      var cond := AtMost(row.usedVcpu, maxUsedV) && AtMost(row.usedMem, maxUsedM);
      if cfg.maxVms != 0 {
        cond := cond && AtMost(row.vmCount, cfg.maxVms - 1);
      }
      if !cond {
        return Lost;
      }
      var loaded := AddLoad(row, vcpu, mem, 1);
      if loaded.None? || row.nextVmNum.None? {
        return Failed;
      }
      var next := row.nextVmNum.value + 1;
      rows := rows[seen.id := loaded.value.(nextVmNum := Some(next), status := Active, idleSince := None)];
      slot := Got(next - 1);
    }

    /** `_release_host_slot`, and the counter update of a delete: the load goes, the number stays
        used up, and nothing else about the host changes. */
    method ReleaseHostSlot(id: HostId, vcpu: int, mem: int) returns (ok: bool)
      modifies this
      ensures var row := RowOf(old(rows), id);
              ok <==> row.usedVcpu.Some? && row.usedMem.Some? && row.vmCount.Some?
      ensures !ok ==> rows == old(rows)
      ensures ok ==> id in rows && rows == old(rows)[id := rows[id]] &&
                     Released(RowOf(old(rows), id), rows[id], vcpu, mem)
    {
      var row := RowOf(rows, id);
      if row.usedVcpu.None? || row.usedMem.None? || row.vmCount.None? {
        return false;
      }
      rows := rows[id := row.(usedVcpu := Some(row.usedVcpu.value - vcpu), usedMem := Some(row.usedMem.value - mem),
                              vmCount := Some(row.vmCount.value - 1))];
      ok := true;
    }

    /** The counter update of a resize. */
    method AddVcpu(id: HostId, delta: int)
      requires id in rows && rows[id].usedVcpu.Some?
      modifies this
      ensures rows == old(rows)[id := old(rows)[id].(usedVcpu := Some(old(rows)[id].usedVcpu.value + delta))]
    {
      rows := rows[id := rows[id].(usedVcpu := Some(rows[id].usedVcpu.value + delta))];
    }

    /** `_bump_target_counters`: two separate updates, the second conditional. */
    method BumpTargetCounters(id: HostId, vmNum: int, vcpu: int, mem: int)
      modifies this
      ensures rows == old(rows)[id := Bump(RowOf(old(rows), id), vmNum, vcpu, mem)]
      ensures var row, row' := RowOf(old(rows), id), rows[id];
              row'.usedVcpu == Some((if row.usedVcpu.Some? then row.usedVcpu.value else 0) + vcpu) &&
              row'.usedMem == Some((if row.usedMem.Some? then row.usedMem.value else 0) + mem) &&
              row'.vmCount == Some((if row.vmCount.Some? then row.vmCount.value else 0) + 1) &&
              row'.nextVmNum.Some? && row'.nextVmNum.value >= vmNum + 1 &&
              (row.nextVmNum.Some? && row.nextVmNum.value >= vmNum + 1 ==> row'.nextVmNum == row.nextVmNum) &&
              (row.nextVmNum.None? || row.nextVmNum.value < vmNum + 1 ==> row'.nextVmNum == Some(vmNum + 1))
    {
      rows := rows[id := AddLoadOrZero(RowOf(rows, id), vcpu, mem, 1)];
      var row := rows[id];
      if row.nextVmNum.None? || row.nextVmNum.value < vmNum + 1 {
        rows := rows[id := row.(nextVmNum := Some(vmNum + 1))];
      }
    }

    /** `_reserve_target_vm_num` */
    method ReserveTargetVmNum(id: HostId) returns (vmNum: int)
      modifies this
      ensures (RowOf(rows, id), vmNum) == ReserveNumber(RowOf(old(rows), id))
      ensures rows == old(rows)[id := RowOf(rows, id)]
      ensures vmNum == (if RowOf(old(rows), id).nextVmNum.Some? then RowOf(old(rows), id).nextVmNum.value else 1)
      ensures RowOf(rows, id) == RowOf(old(rows), id).(nextVmNum := Some(vmNum + 1))
    {
      var row := RowOf(rows, id);
      rows := rows[id := row.(nextVmNum := Some(row.nextVmNum.GetOr(1) + 1))];
      vmNum := row.nextVmNum.GetOr(1);
    }
  }

  // ---- What one write means ----

  /** A booking never takes a published row over its capacity, however stale the row the
      client saw, as long as the totals it saw are the row's. */
  lemma ReserveStaysWithin(row: Host, seen: Host, vcpu: int, mem: int, cfg: Config)
    requires Published(row) && seen.totalVcpu == row.totalVcpu && seen.totalMem == row.totalMem
    ensures var r := Reserve(row, seen, vcpu, mem, cfg);
            r != Raised &&
            (r.Booked? ==> Within(r.row, cfg)) &&
            (r.Booked? <==> Within(row.(usedVcpu := Some(row.usedVcpu.value + vcpu),
                                        usedMem := Some(row.usedMem.value + mem),
                                        vmCount := Some(row.vmCount.value + 1)), cfg))
  {
  }

  /** A release undoes a reservation, whatever load came and went in between: the counters are then
      those of that load alone, while the number the reservation took is never handed out again. */
  lemma ReleaseUndoesReserve(row: Host, seen: Host, vcpu: int, mem: int, cfg: Config,
                             otherVcpu: int, otherMem: int, otherVms: int, released: Host)
    requires Published(row) && Reserve(row, seen, vcpu, mem, cfg).Booked?
    requires var later := AddLoad(Reserve(row, seen, vcpu, mem, cfg).row, otherVcpu, otherMem, otherVms);
             later.Some? && Released(later.value, released, vcpu, mem)
    ensures var without := AddLoad(row, otherVcpu, otherMem, otherVms);
            without.Some? && released.usedVcpu == without.value.usedVcpu &&
            released.usedMem == without.value.usedMem && released.vmCount == without.value.vmCount
    ensures released.nextVmNum == Some(Reserve(row, seen, vcpu, mem, cfg).vmNum + 1)
    ensures otherVcpu == otherMem == otherVms == 0 ==> released == GivenBack(row)
  {
  }

  /** A row whose slot was booked and released again. */
  function GivenBack(h: Host): Host {
    h.(status := Active, idleSince := None, nextVmNum := Some(h.nextVmNum.GetOr(1) + 1))
  }

  /** The unconditional bump keeps a row within capacity exactly when the VM still fits it. */
  lemma BumpWithinIff(row: Host, vmNum: int, vcpu: int, mem: int, cfg: Config)
    requires Published(row)
    ensures Within(Bump(row, vmNum, vcpu, mem), cfg) <==> Reserve(row, row, vcpu, mem, cfg).Booked?
  {
  }

  /** Reserving the number first makes the later bump leave `next_vm_num` alone, whatever
      other reservations and bumps happened in between. */
  lemma BumpAfterReserveNumber(row: Host, later: Host, vcpu: int, mem: int)
    requires var (reserved, n) := ReserveNumber(row);
             later.nextVmNum.Some? && reserved.nextVmNum.value <= later.nextVmNum.value
    ensures Bump(later, ReserveNumber(row).1, vcpu, mem).nextVmNum == later.nextVmNum
  {
  }
}
