/** AZ failover of one tenant: the detector's claim, an at-least-once queue, workers and the
    watchdog, related only by conditional writes and three timeouts.

    Messages, workers and time are explicit.  A worker may stop taking steps at any moment (a
    crash); from `life` seconds after its start it takes none (the Lambda timeout).  A message
    stays in the queue until its worker has returned and the deletion went through (which it may
    fail to do before the message reappears), becomes visible again `visibility` seconds after
    each delivery, is delivered at most twice, and may be dropped (expiry, dead-letter queue)
    whenever it is visible.

    Everybody else (delete, TTL expiry, migrate and its sweep, the operator's actions) writes the
    tenant row whenever it likes, without a condition: `Other`. */
module Failover {
  import opened Tables

  /** The attributes of the tenant row that the protocol reads and writes. */
  datatype Row = Row(status: TenantStatus, host: Option<HostId>, vmNum: int, failoverAt: int)

  predicate Claimable(row: Row) {
    row.status == FailoverQueued || row.status == FailoverRecovering
  }

  function Queued(row: Row, now: int): Row { row.(status := FailoverQueued, failoverAt := now) }
  function Claimed(row: Row, now: int): Row { row.(status := FailoverRecovering, failoverAt := now) }
  function Flipped(row: Row, target: HostId, vmNum: int): Row {
    row.(status := Running, host := Some(target), vmNum := vmNum)
  }

  /** Seconds a worker may live, a delivered message stays hidden, and a tenant may stay claimed
      before the watchdog reaps it. */
  datatype Timing = Timing(life: nat, visibility: nat, cutoff: nat)

  const DEPLOYED := Timing(600, 900, 1800)

  predicate SafeTiming(t: Timing) {
    t.life < t.visibility && t.life < t.cutoff
  }

  /** `claim` numbers the detector's claim the message was sent for. */
  datatype Message = Message(target: HostId, vmNum: int, claim: nat, visibleAt: int, receives: nat, gone: bool)

  datatype Progress = Fetched | Executing | Returned
  datatype Worker = Worker(start: int, msg: nat, progress: Progress)

  /** `claims` counts running -> failover_queued claims; `flips` lists the claim of each flip. */
  datatype State = State(now: int, row: Row, messages: seq<Message>, workers: seq<Worker>,
                         claims: nat, flips: seq<nat>)

  datatype Event =
    | Wait(seconds: nat)
    | Queue(target: HostId, vmNum: int, sent: bool)
    | Deliver(m: nat)
    | Drop(m: nat)
    | Claim(w: nat)
    | Fail(w: nat, status: TenantStatus)
    | Flip(w: nat)
    | Ack(w: nat)
    | Reap
    | Other(row: Row)

  predicate Alive(s: State, w: nat, t: Timing) {
    w < |s.workers| && s.workers[w].progress != Returned && s.now <= s.workers[w].start + t.life
  }

  predicate InQueue(s: State, m: nat) {
    m < |s.messages| && !s.messages[m].gone
  }

  /** The watchdog's condition. */
  predicate Reapable(s: State, t: Timing) {
    Claimable(s.row) && s.now - s.row.failoverAt >= t.cutoff
  }

  const MAX_RECEIVES := 2

  predicate Enabled(s: State, e: Event, t: Timing) {
    match e
    case Wait(_) => true
    case Queue(_, _, _) => s.row.status == Running
    case Deliver(m) => InQueue(s, m) && s.now >= s.messages[m].visibleAt && s.messages[m].receives < MAX_RECEIVES
    case Drop(m) => InQueue(s, m) && s.now >= s.messages[m].visibleAt
    case Claim(w) => Alive(s, w, t) && s.workers[w].progress == Fetched && s.workers[w].msg < |s.messages|
    case Fail(w, status) =>
      Alive(s, w, t) && s.workers[w].progress == Executing && status in {FailoverFailed, FailoverFailedPartial}
    case Flip(w) => Alive(s, w, t) && s.workers[w].progress == Executing && s.workers[w].msg < |s.messages|
    case Ack(w) =>
      w < |s.workers| && s.workers[w].progress == Returned && s.workers[w].msg < |s.messages| &&
      s.now < s.workers[w].start + t.visibility
    case Reap => Reapable(s, t)
    case Other(row) => !Claimable(row)
  }

  function Step(s: State, e: Event, t: Timing): State
    requires Enabled(s, e, t)
  {
    match e
    case Wait(seconds) => s.(now := s.now + seconds)
    case Queue(target, vmNum, sent) =>
      s.(row := Queued(s.row, s.now), claims := s.claims + 1,
         messages := if sent then s.messages + [Message(target, vmNum, s.claims + 1, s.now, 0, false)] else s.messages)
    case Deliver(m) =>
      var msg := s.messages[m];
      s.(messages := s.messages[m := msg.(visibleAt := s.now + t.visibility, receives := msg.receives + 1)],
         workers := s.workers + [Worker(s.now, m, Fetched)])
    case Drop(m) => s.(messages := s.messages[m := s.messages[m].(gone := true)])
    case Claim(w) =>
      if Claimable(s.row) then
        s.(row := Claimed(s.row, s.workers[w].start), workers := s.workers[w := s.workers[w].(progress := Executing)])
      else s.(workers := s.workers[w := s.workers[w].(progress := Returned)])
    case Fail(w, status) =>
      s.(row := s.row.(status := status), workers := s.workers[w := s.workers[w].(progress := Returned)])
    case Flip(w) =>
      var msg := s.messages[s.workers[w].msg];
      s.(row := Flipped(s.row, msg.target, msg.vmNum), flips := s.flips + [msg.claim],
         workers := s.workers[w := s.workers[w].(progress := Returned)])
    case Ack(w) =>
      var m := s.workers[w].msg;
      s.(messages := s.messages[m := s.messages[m].(gone := true)])
    case Reap => s.(row := s.row.(status := FailoverFailed))
    case Other(row) => s.(row := row)
  }

  // ---- Safety ----

  predicate Opening(s: State) {
    !Claimable(s.row) && s.messages == [] && s.workers == [] && s.claims == 0 && s.flips == []
  }

  ghost predicate Continues(states: seq<State>, events: seq<Event>, t: Timing) {
    |states| == |events| + 1 &&
    forall i | 0 <= i < |events| ::
      Enabled(states[i], events[i], t) && states[i + 1] == Step(states[i], events[i], t)
  }

  ghost predicate Run(states: seq<State>, events: seq<Event>, t: Timing) {
    Continues(states, events, t) && Opening(states[0])
  }

  predicate WorksOn(s: State, w: nat, m: nat, t: Timing) {
    Alive(s, w, t) && s.workers[w].msg == m
  }

  /** A message that can still be delivered, or is in the hands of a live worker. */
  ghost predicate Live(s: State, m: nat, t: Timing) {
    InQueue(s, m) && (s.messages[m].receives < MAX_RECEIVES || exists w: nat :: WorksOn(s, w, m, t))
  }

  ghost predicate Clear(s: State, t: Timing) {
    forall m: nat :: !Live(s, m, t)
  }

  /** The detector claims a tenant only when no live message of an earlier claim is left. */
  ghost predicate OneOutstanding(states: seq<State>, events: seq<Event>, t: Timing) {
    forall i | 0 <= i < |events| && i < |states| && events[i].Queue? :: Clear(states[i], t)
  }

  predicate Executes(s: State, w: nat, t: Timing) {
    Alive(s, w, t) && s.workers[w].progress == Executing
  }

  /** What the protocol is for, at one moment: a worker that has the tenant is the only live one, and
      the watchdog cannot reap the tenant under it. */
  ghost predicate Exclusive(s: State, t: Timing) {
    (forall v: nat, w: nat | Alive(s, v, t) && Alive(s, w, t) && v != w :: !Executes(s, v, t)) &&
    (forall w: nat | Executes(s, w, t) :: !Reapable(s, t))
  }

  /** At most one message is live, and it belongs to the latest claim. */
  ghost predicate OneMessage(s: State, t: Timing) {
    (forall m: nat, n: nat | Live(s, m, t) && Live(s, n, t) :: m == n) &&
    (forall m: nat | Live(s, m, t) :: s.messages[m].claim == s.claims)
  }

  /** Deliveries of one message are at least a visibility timeout apart, and the message of a
      live worker is still queued. */
  ghost predicate Spaced(s: State, t: Timing) {
    (forall w | 0 <= w < |s.workers| :: s.workers[w].msg < |s.messages| && s.workers[w].start <= s.now &&
       s.messages[s.workers[w].msg].visibleAt >= s.workers[w].start + t.visibility) &&
    (forall v, w | 0 <= v < w < |s.workers| && s.workers[v].msg == s.workers[w].msg ::
       s.workers[w].start >= s.workers[v].start + t.visibility) &&
    (forall w: nat | Alive(s, w, t) :: InQueue(s, s.workers[w].msg) &&
       s.messages[s.workers[w].msg].visibleAt == s.workers[w].start + t.visibility)
  }

  /** While a worker has the tenant and nobody else took the claimable status away, the row is the
      one it wrote; and the latest claim has not been flipped while it may still be. */
  ghost predicate RowInv(s: State, t: Timing) {
    (forall w: nat | Executes(s, w, t) && Claimable(s.row) ::
       s.row.status == FailoverRecovering && s.row.failoverAt == s.workers[w].start) &&
    (forall w: nat | Executes(s, w, t) :: s.claims !in s.flips) &&
    (forall k | 0 <= k < |s.flips| :: s.flips[k] <= s.claims) &&
    (forall j, k | 0 <= j < k < |s.flips| :: s.flips[j] != s.flips[k]) &&
    (Claimable(s.row) ==> s.claims !in s.flips)
  }

  ghost predicate Inv(s: State, t: Timing) {
    OneMessage(s, t) && Spaced(s, t) && RowInv(s, t)
  }

  lemma WorkedOnIsLive(s: State, t: Timing, w: nat)
    requires Spaced(s, t) && Alive(s, w, t)
    ensures Live(s, s.workers[w].msg, t)
  {
    assert InQueue(s, s.workers[w].msg) && WorksOn(s, w, s.workers[w].msg, t);
  }

  lemma OneAlive(s: State, t: Timing, v: nat, w: nat)
    requires OneMessage(s, t) && Spaced(s, t) && SafeTiming(t) && Alive(s, v, t) && Alive(s, w, t)
    ensures v == w
  {
    WorkedOnIsLive(s, t, v);
    WorkedOnIsLive(s, t, w);
    assert s.workers[v].msg == s.workers[w].msg;
  }

  lemma StepKeepsOneMessage(s: State, e: Event, t: Timing)
    requires OneMessage(s, t) && Spaced(s, t) && Enabled(s, e, t) && (e.Queue? ==> Clear(s, t))
    ensures OneMessage(Step(s, e, t), t)
  {
    var s' := Step(s, e, t);
    forall m: nat | Live(s', m, t) ensures if e.Queue? then m == |s.messages| else Live(s, m, t) {
      StaysLive(s, e, t, m);
    }
  }

  lemma StaysLive(s: State, e: Event, t: Timing, m: nat)
    requires Spaced(s, t) && Enabled(s, e, t) && Live(Step(s, e, t), m, t)
    ensures (e.Queue? && m == |s.messages|) || Live(s, m, t)
  {
    var s' := Step(s, e, t);
    if w: nat :| WorksOn(s', w, m, t) {
      assert w < |s.workers| ==> WorksOn(s, w, m, t);
    }
  }

  /** No delivery between `s` and `s'`. */
  ghost predicate Quiet(s: State, s': State) {
    |s'.workers| == |s.workers| && |s'.messages| >= |s.messages| && s'.now >= s.now &&
    (forall w | 0 <= w < |s.workers| ::
       s'.workers[w].msg == s.workers[w].msg && s'.workers[w].start == s.workers[w].start &&
       (s.workers[w].progress == Returned ==> s'.workers[w].progress == Returned)) &&
    (forall m | 0 <= m < |s.messages| :: s'.messages[m].visibleAt == s.messages[m].visibleAt)
  }

  lemma QuietUnlessDelivered(s: State, e: Event, t: Timing)
    requires Enabled(s, e, t) && !e.Deliver?
    ensures Quiet(s, Step(s, e, t))
  {
  }

  lemma MessageStays(s: State, e: Event, t: Timing, w: nat)
    requires SafeTiming(t) && Spaced(s, t) && Enabled(s, e, t) && Alive(s, w, t) && !e.Deliver?
    ensures InQueue(Step(s, e, t), s.workers[w].msg)
  {
    assert InQueue(s, s.workers[w].msg);
  }

  lemma QuietKeepsSpaced(s: State, s': State, t: Timing)
    requires Spaced(s, t) && Quiet(s, s')
    requires forall w: nat | Alive(s, w, t) :: InQueue(s', s.workers[w].msg)
    ensures Spaced(s', t)
  {
    assert forall w: nat | Alive(s', w, t) :: Alive(s, w, t);
  }

  lemma DeliverKeepsSpaced(s: State, m: nat, t: Timing)
    requires SafeTiming(t) && Spaced(s, t) && Enabled(s, Deliver(m), t)
    ensures Spaced(Step(s, Deliver(m), t), t)
  {
    var s' := Step(s, Deliver(m), t);
    forall w: nat | Alive(s', w, t)
      ensures InQueue(s', s'.workers[w].msg)
      ensures s'.messages[s'.workers[w].msg].visibleAt == s'.workers[w].start + t.visibility
    {
      if w < |s.workers| {
        assert Alive(s, w, t) && s.workers[w].msg != m && InQueue(s, s.workers[w].msg);
      }
    }
  }

  lemma StepKeepsSpaced(s: State, e: Event, t: Timing)
    requires SafeTiming(t) && Spaced(s, t) && Enabled(s, e, t)
    ensures Spaced(Step(s, e, t), t)
  {
    if e.Deliver? {
      DeliverKeepsSpaced(s, e.m, t);
    } else {
      QuietUnlessDelivered(s, e, t);
      forall w: nat | Alive(s, w, t) ensures InQueue(Step(s, e, t), s.workers[w].msg) {
        MessageStays(s, e, t, w);
      }
      QuietKeepsSpaced(s, Step(s, e, t), t);
    }
  }

  lemma StepKeepsRow(s: State, e: Event, t: Timing)
    requires SafeTiming(t) && Inv(s, t) && Enabled(s, e, t) && (e.Queue? ==> Clear(s, t))
    ensures RowInv(Step(s, e, t), t)
  {
    var s' := Step(s, e, t);
    assert forall w: nat | w < |s.workers| :: Alive(s', w, t) ==> Alive(s, w, t);
    forall w: nat | Executes(s', w, t) && e != Claim(w) ensures Executes(s, w, t) { StillExecutes(s, e, t, w); }
    if e.Queue? {
      forall w: nat | Alive(s, w, t) ensures false { WorkedOnIsLive(s, t, w); }
    } else if e.Claim? || e.Fail? || e.Flip? {
      forall v: nat | Alive(s, v, t) ensures v == e.w { OneAlive(s, t, v, e.w); }
      WorkedOnIsLive(s, t, e.w);
      assert !e.Claim? ==> Executes(s, e.w, t);
      assert e.Claim? && Executes(s', e.w, t) ==> Claimable(s.row);
    }
  }

  lemma StepKeepsInv(s: State, e: Event, t: Timing)
    requires SafeTiming(t) && Inv(s, t) && Enabled(s, e, t) && (e.Queue? ==> Clear(s, t))
    ensures Inv(Step(s, e, t), t)
  {
    StepKeepsOneMessage(s, e, t);
    StepKeepsSpaced(s, e, t);
    StepKeepsRow(s, e, t);
  }

  lemma {:induction false} ContinuationKeepsInv(states: seq<State>, events: seq<Event>, t: Timing, i: nat)
    requires SafeTiming(t) && Continues(states, events, t) && Inv(states[0], t)
    requires OneOutstanding(states, events, t) && i < |states|
    ensures Inv(states[i], t)
  {
    if i > 0 {
      ContinuationKeepsInv(states, events, t, i - 1);
      StepKeepsInv(states[i - 1], events[i - 1], t);
    }
  }

  lemma InvIsExclusive(s: State, t: Timing)
    requires SafeTiming(t) && Inv(s, t)
    ensures Exclusive(s, t)
  {
    forall v: nat, w: nat | Alive(s, v, t) && Alive(s, w, t) ensures v == w {
      OneAlive(s, t, v, w);
    }
  }

  /** The safety of the protocol over every run, whatever other actors write to the row: exclusivity
      throughout; the watchdog reaps only when no live worker has the tenant; and no claim of the
      detector ever leads to two flips. */
  lemma FailoverIsSafe(states: seq<State>, events: seq<Event>, t: Timing, i: nat)
    requires SafeTiming(t) && Run(states, events, t) && OneOutstanding(states, events, t) && i < |states|
    ensures Exclusive(states[i], t)
    ensures i < |events| && events[i].Reap? ==> forall w: nat :: !Executes(states[i], w, t)
    ensures forall j, k | 0 <= j < k < |states[i].flips| :: states[i].flips[j] != states[i].flips[k]
    ensures forall k | 0 <= k < |states[i].flips| :: states[i].flips[k] <= states[i].claims
  {
    ContinuationKeepsInv(states, events, t, i);
    InvIsExclusive(states[i], t);
  }

  /** The watchdog may reap exactly a tenant claimed for at least the cutoff, and then only fails it. */
  lemma ReapsExactly(s: State, t: Timing)
    ensures Enabled(s, Reap, t) <==>
              (s.row.status == FailoverQueued || s.row.status == FailoverRecovering) &&
              s.now - s.row.failoverAt >= t.cutoff
    ensures Enabled(s, Reap, t) ==> Step(s, Reap, t) == s.(row := s.row.(status := FailoverFailed))
  {
  }

  // ---- Other writers ----

  /** While the worker has the tenant: no step but another actor's changes the row's status. */
  lemma RowIsTheWorkers(s: State, e: Event, t: Timing, w: nat)
    requires SafeTiming(t) && Inv(s, t) && Enabled(s, e, t) && (e.Queue? ==> Clear(s, t))
    requires Executes(s, w, t) && Executes(Step(s, e, t), w, t)
    ensures if e.Other? then Step(s, e, t).row.status != FailoverRecovering else Step(s, e, t).row == s.row
  {
    InvIsExclusive(s, t);
    WorkedOnIsLive(s, t, w);
    if e.Claim? || e.Fail? || e.Flip? {
      OneAlive(s, t, w, e.w);
    }
  }

  /** No other actor writes the row after `claim` and before `i`. */
  ghost predicate Untouched(events: seq<Event>, claim: int, i: int)
    requires -1 <= claim && i <= |events|
  {
    forall k | claim < k < i :: !events[k].Other?
  }

  lemma UntouchedOneMore(events: seq<Event>, claim: nat, i: nat)
    requires claim < i - 1 && i <= |events|
    ensures Untouched(events, claim, i) <==> Untouched(events, claim, i - 1) && !events[i - 1].Other?
  {
  }

  lemma StillExecutes(s: State, e: Event, t: Timing, w: nat)
    requires Enabled(s, e, t) && Executes(Step(s, e, t), w, t) && e != Claim(w)
    ensures Executes(s, w, t)
  {
  }

  /** The exact condition: while a worker executes, the tenant is `failover_recovering` if and only if
      no other actor has written the row since that worker's claim.  The unconditional final flip
      therefore starts from `failover_recovering` in exactly these cases. */
  lemma {:induction false} RecoveringIffUntouched(states: seq<State>, events: seq<Event>, t: Timing, i: nat, w: nat)
    returns (claim: nat)
    requires SafeTiming(t) && Run(states, events, t) && OneOutstanding(states, events, t)
    requires i < |states| && Executes(states[i], w, t)
    ensures claim < i && events[claim] == Claim(w) && Executes(states[claim + 1], w, t)
    ensures states[i].row.status == FailoverRecovering <==> Untouched(events, claim, i)
  {
    if events[i - 1] == Claim(w) {
      claim := i - 1;
      ClaimRecovers(states[i - 1], t, w);
    } else {
      StillExecutes(states[i - 1], events[i - 1], t, w);
      claim := RecoveringIffUntouched(states, events, t, i - 1, w);
      RecoveringStepOfRun(states, events, t, i, w, Untouched(events, claim, i - 1));
      UntouchedOneMore(events, claim, i);
    }
  }

  lemma ClaimRecovers(s: State, t: Timing, w: nat)
    requires Enabled(s, Claim(w), t) && Executes(Step(s, Claim(w), t), w, t)
    ensures Step(s, Claim(w), t).row.status == FailoverRecovering
  {
  }

  lemma RecoveringStepOfRun(states: seq<State>, events: seq<Event>, t: Timing, i: nat, w: nat, untouched: bool)
    requires SafeTiming(t) && Run(states, events, t) && OneOutstanding(states, events, t)
    requires 0 < i < |states| && events[i - 1] != Claim(w)
    requires Executes(states[i - 1], w, t) && Executes(states[i], w, t)
    requires states[i - 1].row.status == FailoverRecovering <==> untouched
    ensures states[i].row.status == FailoverRecovering <==> untouched && !events[i - 1].Other?
  {
    ContinuationKeepsInv(states, events, t, i - 1);
    RecoveringStep(states[i - 1], events[i - 1], t, w, untouched);
  }

  lemma RecoveringStep(s: State, e: Event, t: Timing, w: nat, untouched: bool)
    requires SafeTiming(t) && Inv(s, t) && Enabled(s, e, t) && (e.Queue? ==> Clear(s, t)) && e != Claim(w)
    requires Executes(s, w, t) && Executes(Step(s, e, t), w, t)
    requires s.row.status == FailoverRecovering <==> untouched
    ensures Step(s, e, t).row.status == FailoverRecovering <==> untouched && !e.Other?
  {
    RowIsTheWorkers(s, e, t, w);
  }

  lemma DeployedTimingIsSafe()
    ensures SafeTiming(DEPLOYED)
  {
  }

  // ---- The timeouts are exactly what safety needs ----

  ghost predicate AlwaysExclusive(t: Timing) {
    forall states, events | Run(states, events, t) && OneOutstanding(states, events, t) ::
      forall i | 0 <= i < |states| :: Exclusive(states[i], t)
  }

  /** The tenant claimed, its message delivered and taken up by a first worker, `seconds` ago. */
  lemma ClaimedRun(t: Timing, seconds: nat) returns (states: seq<State>, events: seq<Event>)
    ensures Run(states, events, t) && OneOutstanding(states, events, t) && |events| == 4
    ensures states[4] == State(seconds, Row(FailoverRecovering, None, 0, 0),
                               [Message("i-2", 7, 1, t.visibility, 1, false)], [Worker(0, 0, Executing)], 1, [])
  {
    var s0 := State(0, Row(Running, None, 0, 0), [], [], 0, []);
    var s1 := Step(s0, Queue("i-2", 7, true), t);
    var s2 := Step(s1, Deliver(0), t);
    var s3 := Step(s2, Claim(0), t);
    var s4 := Step(s3, Wait(seconds), t);
    events := [Queue("i-2", 7, true), Deliver(0), Claim(0), Wait(seconds)];
    states := [s0, s1, s2, s3, s4];
  }

  lemma ExtendRun(states: seq<State>, events: seq<Event>, e: Event, t: Timing)
    requires Continues(states, events, t) && Enabled(states[|events|], e, t)
    ensures Continues(states + [Step(states[|events|], e, t)], events + [e], t)
    ensures OneOutstanding(states, events, t) && !e.Queue? ==>
              OneOutstanding(states + [Step(states[|events|], e, t)], events + [e], t)
  {
  }

  /** A message that reappears while its worker may still run gives the tenant to two workers. */
  lemma ShortVisibilityIsUnsafe(t: Timing)
    requires t.visibility <= t.life
    ensures !AlwaysExclusive(t)
  {
    var states, events := ClaimedRun(t, t.visibility);
    ExtendRun(states, events, Deliver(0), t);
    states, events := states + [Step(states[4], Deliver(0), t)], events + [Deliver(0)];
    assert Executes(states[5], 0, t) && Alive(states[5], 1, t);
    assert !Exclusive(states[5], t);
  }

  /** A watchdog that cuts off no later than the worker's life may reap a tenant being recovered. */
  lemma ShortCutoffIsUnsafe(t: Timing)
    requires t.cutoff <= t.life
    ensures !AlwaysExclusive(t)
  {
    var states, events := ClaimedRun(t, t.cutoff);
    assert Executes(states[4], 0, t) && Reapable(states[4], t);
    assert !Exclusive(states[4], t);
  }

  /** The protocol is exclusive on every run if and only if a worker's life is strictly shorter
      than both the visibility timeout and the watchdog's cutoff. */
  lemma TimingIsExact(t: Timing)
    ensures AlwaysExclusive(t) <==> SafeTiming(t)
  {
    if SafeTiming(t) {
      forall states, events, i | Run(states, events, t) && OneOutstanding(states, events, t) && 0 <= i < |states|
        ensures Exclusive(states[i], t)
      {
        FailoverIsSafe(states, events, t, i);
      }
    } else if t.visibility <= t.life {
      ShortVisibilityIsUnsafe(t);
    } else {
      ShortCutoffIsUnsafe(t);
    }
  }

  /** A tenant deleted while a worker recovers it runs again: the final flip has no condition. */
  lemma DeletedTenantComesBack() returns (states: seq<State>, events: seq<Event>)
    ensures Run(states, events, DEPLOYED) && OneOutstanding(states, events, DEPLOYED) && |events| == 6
    ensures states[5].row.status == TenantStatus.Deleted && events[5] == Flip(0)
    ensures states[6].row == Row(Running, Some("i-2"), 7, 0)
  {
    states, events := ClaimedRun(DEPLOYED, 0);
    var gone := Other(Row(TenantStatus.Deleted, None, 0, 0));
    ExtendRun(states, events, gone, DEPLOYED);
    states, events := states + [Step(states[4], gone, DEPLOYED)], events + [gone];
    ExtendRun(states, events, Flip(0), DEPLOYED);
    states, events := states + [Step(states[5], Flip(0), DEPLOYED)], events + [Flip(0)];
  }

  // ---- When a second claim is safe ----

  /** Whatever follows, later claims being made on a clear queue, stays exclusive. */
  ghost predicate StaysExclusive(s: State, t: Timing) {
    forall states, events | Continues(states, events, t) && OneOutstanding(states, events, t) && states[0] == s ::
      forall i | 0 <= i < |states| :: Exclusive(states[i], t)
  }

  /** The exact condition on the detector's claim: with safe timeouts, and from any state a safe run
      can be in, a claim is safe if and only if no earlier message of the tenant can still be
      delivered and no live worker holds one. */
  lemma QueueIsSafeIff(s: State, target: HostId, vmNum: int, t: Timing)
    requires SafeTiming(t) && Inv(s, t) && Enabled(s, Queue(target, vmNum, true), t)
    ensures StaysExclusive(Step(s, Queue(target, vmNum, true), t), t) <==> Clear(s, t)
  {
    var q := Step(s, Queue(target, vmNum, true), t);
    if Clear(s, t) {
      StepKeepsInv(s, Queue(target, vmNum, true), t);
      forall states, events, i | Continues(states, events, t) && OneOutstanding(states, events, t) &&
                                 states[0] == q && 0 <= i < |states|
        ensures Exclusive(states[i], t)
      {
        ContinuationKeepsInv(states, events, t, i);
        InvIsExclusive(states[i], t);
      }
    } else {
      var m: nat :| Live(s, m, t);
      if w: nat :| WorksOn(s, w, m, t) {
        LiveWorkerCollides(s, q, w, t);
      } else {
        OldMessageCollides(s, q, m, t);
      }
    }
  }

  /** A worker that has the tenant next to a live one, some steps after `q`, refutes exclusivity. */
  lemma Collides(q: State, states: seq<State>, events: seq<Event>, v: nat, w: nat, t: Timing)
    requires Continues(states, events, t) && OneOutstanding(states, events, t) && states[0] == q
    requires v != w && Executes(states[|events|], v, t) && Alive(states[|events|], w, t)
    ensures !StaysExclusive(q, t)
  {
    assert !Exclusive(states[|events|], t);
  }

  lemma LiveWorkerCollides(s: State, q: State, w: nat, t: Timing)
    requires Spaced(s, t) && Alive(s, w, t) && Claimable(q.row) && q.workers == s.workers && q.now == s.now
    requires |q.messages| == |s.messages| + 1 && InQueue(q, |s.messages|)
    requires q.messages[|s.messages|].visibleAt <= q.now && q.messages[|s.messages|].receives == 0
    ensures !StaysExclusive(q, t)
  {
    var n := |s.messages|;
    var states, events := [q], [];
    if s.workers[w].progress == Fetched {
      ExtendRun(states, events, Claim(w), t);
      states, events := states + [Step(q, Claim(w), t)], events + [Claim(w)];
    }
    var last := states[|events|];
    assert Executes(last, w, t);
    ExtendRun(states, events, Deliver(n), t);
    states, events := states + [Step(last, Deliver(n), t)], events + [Deliver(n)];
    Collides(q, states, events, w, |s.workers|, t);
  }

  lemma OldMessageCollides(s: State, q: State, m: nat, t: Timing)
    requires InQueue(s, m) && s.messages[m].receives < MAX_RECEIVES && Claimable(q.row)
    requires |q.messages| == |s.messages| + 1 && q.messages[m] == s.messages[m] && InQueue(q, |s.messages|)
    requires q.messages[|s.messages|].visibleAt <= q.now && q.messages[|s.messages|].receives == 0
    ensures !StaysExclusive(q, t)
  {
    var n, a := |s.messages|, |q.workers|;
    var pause := Wait(if q.messages[m].visibleAt > q.now then q.messages[m].visibleAt - q.now else 0);
    var s1 := Step(q, pause, t);
    ExtendRun([q], [], pause, t);
    var s2 := Step(s1, Deliver(m), t);
    ExtendRun([q] + [s1], [] + [pause], Deliver(m), t);
    var s3 := Step(s2, Claim(a), t);
    ExtendRun([q] + [s1] + [s2], [] + [pause] + [Deliver(m)], Claim(a), t);
    var s4 := Step(s3, Deliver(n), t);
    ExtendRun([q] + [s1] + [s2] + [s3], [] + [pause] + [Deliver(m)] + [Claim(a)], Deliver(n), t);
    Collides(q, [q] + [s1] + [s2] + [s3] + [s4], [] + [pause] + [Deliver(m)] + [Claim(a)] + [Deliver(n)], a, a + 1, t);
  }

  /** A worker flips the tenant to `i-2` and dies before its message is deleted; 900 s later the
      detector claims the tenant again, for `i-3`. */
  lemma FlippedThenClaimedRun() returns (states: seq<State>, events: seq<Event>)
    ensures Run(states, events, DEPLOYED) && |events| == 7
    ensures states[7] == State(900, Row(FailoverQueued, Some("i-2"), 7, 900),
                               [Message("i-2", 7, 1, 900, 1, false), Message("i-3", 8, 2, 900, 0, false)],
                               [Worker(0, 0, Returned)], 2, [1])
  {
    states, events := ClaimedRun(DEPLOYED, 0);
    ExtendRun(states, events, Flip(0), DEPLOYED);
    states, events := states + [Step(states[4], Flip(0), DEPLOYED)], events + [Flip(0)];
    ExtendRun(states, events, Wait(900), DEPLOYED);
    states, events := states + [Step(states[5], Wait(900), DEPLOYED)], events + [Wait(900)];
    ExtendRun(states, events, Queue("i-3", 8, true), DEPLOYED);
    states, events := states + [Step(states[6], Queue("i-3", 8, true), DEPLOYED)], events + [Queue("i-3", 8, true)];
  }

  /** Such a state is reached by a run: with the deployed timeouts, a second claim made while
      the message of the first is still queued ends with two workers on the tenant, one of them
      recovering it to the old target. */
  lemma SecondMessageIsUnsafe() returns (states: seq<State>, events: seq<Event>)
    ensures Run(states, events, DEPLOYED) && |events| == 10 && !Exclusive(states[10], DEPLOYED)
    ensures states[10].workers == [Worker(0, 0, Returned), Worker(900, 0, Executing), Worker(900, 1, Fetched)]
    ensures states[10].now == 900
  {
    states, events := FlippedThenClaimedRun();
    ExtendRun(states, events, Deliver(0), DEPLOYED);
    states, events := states + [Step(states[7], Deliver(0), DEPLOYED)], events + [Deliver(0)];
    ExtendRun(states, events, Deliver(1), DEPLOYED);
    states, events := states + [Step(states[8], Deliver(1), DEPLOYED)], events + [Deliver(1)];
    ExtendRun(states, events, Claim(1), DEPLOYED);
    states, events := states + [Step(states[9], Claim(1), DEPLOYED)], events + [Claim(1)];
    assert Executes(states[10], 1, DEPLOYED) && Alive(states[10], 2, DEPLOYED);
  }
}
