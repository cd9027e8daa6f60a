/** Host-side recovery: the dead-zone counter and the guard against duplicate launches. */
module DeadZone {
  import opened Tables

  const THRESHOLD := 3

  datatype Poll = Poll(id: TenantId, reachable: bool)

  /** Consecutive unreachable polls of `id` at the end of a history of everybody's polls. */
  function Streak(history: seq<Poll>, id: TenantId): nat {
    if history == [] then 0
    else
      var n := |history| - 1;
      if history[n].id != id then Streak(history[..n], id)
      else if history[n].reachable then 0
      else Streak(history[..n], id) + 1
  }

  /** How far the streak is into the current round of the threshold. */
  function Phase(history: seq<Poll>, id: TenantId): (p: nat)
    ensures p < THRESHOLD
  {
    Streak(history, id) % THRESHOLD
  }

  datatype Sight =
    | Skipped
    | NoProcess(submitted: bool)
    | ProcessRunning(reachable: bool, submitted: bool)

  /** What the agent saw and did, in order: `Seen` when it observed the tenant's process. */
  datatype Act = Seen(id: TenantId) | Launched(id: TenantId)

  function LastAct(log: seq<Act>, id: TenantId): Option<Act> {
    if log == [] then None
    else if log[|log| - 1].id == id then Some(log[|log| - 1])
    else LastAct(log[..|log| - 1], id)
  }

  class Agent {
    var netDeadPolls: map<TenantId, int>
    var recovering: set<TenantId>
    ghost var history: seq<Poll>
    ghost var log: seq<Act>

    constructor ()
      ensures Valid() && history == [] && log == []
    {
      netDeadPolls, recovering, history, log := map[], {}, [], [];
    }

    /** A counter is the tenant's streak modulo the threshold; a tenant is being recovered exactly
        when its last launch has not been followed by a running process. */
    ghost predicate Valid()
      reads this
    {
      Counts(netDeadPolls, history) && Guards(recovering, log) && Separated(log)
    }

    /** `_register_net_poll` */
    method RegisterNetPoll(id: TenantId, reachable: bool) returns (fire: bool)
      requires Counts(netDeadPolls, history)
      modifies this`netDeadPolls, this`history
      ensures Counts(netDeadPolls, history) && history == old(history) + [Poll(id, reachable)]
      ensures fire <==> !reachable && Phase(history, id) == 0
      ensures fire <==> !reachable && Streak(history, id) % 3 == 0
    {
      CountsAfter(netDeadPolls, history, Poll(id, reachable));
      history := history + [Poll(id, reachable)];
      if reachable {
        netDeadPolls := netDeadPolls - {id};
        return false;
      }
      var n := (if id in netDeadPolls then netDeadPolls[id] else 0) + 1;
      netDeadPolls := netDeadPolls[id := n];
      if n >= THRESHOLD {
        netDeadPolls := netDeadPolls - {id};
        return true;
      }
      fire := false;
    }

    /** `_recover_vm` and the launch half of `_force_relaunch_vm`. */
    method Launch(id: TenantId, submitted: bool) returns (launched: bool)
      requires Guards(recovering, log) && Separated(log)
      modifies this`recovering, this`log
      ensures Guards(recovering, log) && Separated(log)
      ensures launched <==> submitted && LastAct(old(log), id) != Some(Launched(id))
      ensures log == if launched then old(log) + [Launched(id)] else old(log)
    {
      if id in recovering {
        return false;
      }
      recovering := recovering + {id};
      if !submitted {
        recovering := recovering - {id};
        return false;
      }
      LastActAfter(log, Launched(id));
      SeparatedAfter(log, id);
      log := log + [Launched(id)];
      launched := true;
    }

    /** One tenant's share of `_probe_all`. */
    method ProbeOne(id: TenantId, sight: Sight) returns (launched: bool)
      requires Valid()
      modifies this
      ensures Valid()
      ensures history == if sight.ProcessRunning? then old(history) + [Poll(id, sight.reachable)] else old(history)
      ensures launched <==>
                (sight.NoProcess? && sight.submitted && LastAct(old(log), id) != Some(Launched(id))) ||
                (sight.ProcessRunning? && !sight.reachable && sight.submitted &&
                 Phase(history, id) == 0)
      ensures var seen := if sight.ProcessRunning? then old(log) + [Seen(id)] else old(log);
              log == if launched then seen + [Launched(id)] else seen
    {
      match sight {
        case Skipped => launched := false;
        case NoProcess(submitted) => launched := Launch(id, submitted);
        case ProcessRunning(reachable, submitted) =>
          LastActAfter(log, Seen(id));
          SeenKeepsSeparated(log, id);
          recovering := recovering - {id};
          log := log + [Seen(id)];
          var fire := RegisterNetPoll(id, reachable);
          launched := false;
          if fire {
            launched := Launch(id, submitted);
          }
      }
    }
  }

  ghost predicate Counts(counts: map<TenantId, int>, history: seq<Poll>) {
    forall id :: (id in counts <==> Phase(history, id) != 0) &&
                 (id in counts ==> counts[id] == Phase(history, id))
  }

  ghost predicate Guards(recovering: set<TenantId>, log: seq<Act>) {
    forall id :: id in recovering <==> LastAct(log, id) == Some(Launched(id))
  }

  /** Between two launches of a tenant its process was seen running. */
  ghost predicate Separated(log: seq<Act>) {
    forall i, j | 0 <= i < j < |log| && log[i].Launched? && log[j] == log[i] ::
      exists k :: i < k < j && log[k] == Seen(log[i].id)
  }

  lemma StreakAfter(history: seq<Poll>, p: Poll)
    ensures forall id :: Streak(history + [p], id) ==
              if id != p.id then Streak(history, id) else if p.reachable then 0 else Streak(history, id) + 1
  {
    assert (history + [p])[..|history|] == history;
  }

  lemma PhaseAfter(history: seq<Poll>, p: Poll)
    ensures forall id :: Phase(history + [p], id) ==
              if id != p.id then Phase(history, id)
              else if p.reachable || Phase(history, id) == THRESHOLD - 1 then 0 else Phase(history, id) + 1
  {
    StreakAfter(history, p);
  }

  /** The counter of a polled tenant follows its streak, and starts over at each multiple. */
  lemma CountsAfter(counts: map<TenantId, int>, history: seq<Poll>, p: Poll)
    requires Counts(counts, history)
    ensures var n := (if p.id in counts then counts[p.id] else 0) + 1;
            Counts(if p.reachable || n >= THRESHOLD then counts - {p.id} else counts[p.id := n], history + [p]) &&
            (!p.reachable ==> (n >= THRESHOLD <==> Phase(history + [p], p.id) == 0))
  {
    PhaseAfter(history, p);
  }

  lemma LastActAfter(log: seq<Act>, a: Act)
    ensures forall id :: LastAct(log + [a], id) == if a.id == id then Some(a) else LastAct(log, id)
  {
    assert (log + [a])[..|log|] == log;
  }

  lemma SeenKeepsSeparated(log: seq<Act>, id: TenantId)
    requires Separated(log)
    ensures Separated(log + [Seen(id)])
  {
    var after := log + [Seen(id)];
    forall i, j | 0 <= i < j < |after| && after[i].Launched? && after[j] == after[i]
      ensures exists k :: i < k < j && after[k] == Seen(after[i].id)
    {
      var k :| i < k < j && log[k] == Seen(log[i].id);
      assert after[k] == log[k];
    }
  }

  lemma SeparatedAfter(log: seq<Act>, id: TenantId)
    requires Separated(log) && LastAct(log, id) != Some(Launched(id))
    ensures Separated(log + [Launched(id)])
  {
    var after := log + [Launched(id)];
    forall i, j | 0 <= i < j < |after| && after[i].Launched? && after[j] == after[i]
      ensures exists k :: i < k < j && after[k] == Seen(after[i].id)
    {
      if j < |log| {
        var k :| i < k < j && log[k] == Seen(log[i].id);
        assert after[k] == log[k];
      } else {
        var k := SeenSince(log, id, i);
        assert after[k] == log[k];
      }
    }
  }

  /** If the last act on a tenant is not a launch, its process was seen after any earlier launch. */
  lemma {:induction false} SeenSince(log: seq<Act>, id: TenantId, i: nat) returns (k: nat)
    requires i < |log| && log[i] == Launched(id) && LastAct(log, id) != Some(Launched(id))
    ensures i < k < |log| && log[k] == Seen(id)
  {
    var n := |log| - 1;
    if log[n].id == id {
      k := n;
    } else {
      k := SeenSince(log[..n], id, i);
    }
  }

  /** Polls of other tenants in between change nothing, whatever the interleaving: a tenant's streak
      is the streak of its own polls. */
  lemma {:induction false} StreakIgnoresOthers(history: seq<Poll>, id: TenantId)
    ensures Streak(history, id) == Streak(Own(history, id), id)
  {
    if history != [] {
      var n := |history| - 1;
      var own := Own(history[..n], id);
      StreakIgnoresOthers(history[..n], id);
      if history[n].id == id {
        assert Own(history, id) == own + [history[n]];
        StreakAfter(own, history[n]);
      } else {
        assert Own(history, id) == own;
      }
    }
  }

  function Own(history: seq<Poll>, id: TenantId): seq<Poll> {
    if history == [] then []
    else Own(history[..|history| - 1], id) +
         (if history[|history| - 1].id == id then [history[|history| - 1]] else [])
  }
}
