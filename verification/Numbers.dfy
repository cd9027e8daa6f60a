/** VM numbers: each becomes a guest address and a host port, so two VMs of one host must
    never share one. */
module Numbers {
  import opened Tables
  import opened Plane
  import HostRows

  function Next(s: State, h: HostId): int
    requires h in s.hosts
  {
    s.hosts[h].nextVmNum.GetOr(1)
  }

  /** From `s` to `s'` no `next_vm_num` went back, and a number handed out was the current one. */
  ghost predicate Forward(s: State, s': State) {
    (forall h <- s.hosts :: h in s'.hosts && Next(s, h) <= Next(s', h)) &&
    (s'.issued == s.issued ||
     (|s'.issued| == |s.issued| + 1 && s'.issued[..|s.issued|] == s.issued &&
      var (g, n) := s'.issued[|s.issued|]; g in s.hosts && n == Next(s, g) < Next(s', g)))
  }

  lemma NextMovesForward(s: State, e: Event, st: Settings, h: HostId)
    requires Inv(s) && Enabled(s, e, st) && h in s.hosts
    ensures h in Step(s, e, st).hosts && Next(s, h) <= Next(Step(s, e, st), h)
  {
    StepRow(s, e, st, h);
    RowKeepsShape(s, e, st, h);
    RowMovesForward(s, e, st, h);
  }

  lemma RowMovesForward(s: State, e: Event, st: Settings, h: HostId)
    requires Enabled(s, e, st) && h in s.hosts && Published(s.hosts[h])
    ensures s.hosts[h].nextVmNum.GetOr(1) <= RowAfter(s, e, st, h).nextVmNum.GetOr(1)
  {
  }

  /** No event, from a reservation to a bump with an old number, moves `next_vm_num` back. */
  lemma StepMovesForward(s: State, e: Event, st: Settings)
    requires Inv(s) && Enabled(s, e, st)
    ensures Forward(s, Step(s, e, st))
  {
    forall h <- s.hosts ensures h in Step(s, e, st).hosts && Next(s, h) <= Next(Step(s, e, st), h) {
      NextMovesForward(s, e, st, h);
    }
    if e.Try? {
      var k := s.creates[e.c];
      assert CreateOk(s, k) && k.picks[k.tried] in k.picks;
    }
  }

  /** The host and number an event bumps with, if any. */
  function Bumps(s: State, e: Event): Option<(HostId, int)> {
    match e
    case Flip(_, target, n) => Some((target, n))
    case FinishMove(t) =>
      if t < |s.tenants| && s.tenants[t].move.Some?
      then Some((s.tenants[t].move.value.target, s.tenants[t].move.value.vmNum)) else None
    case _ => None
  }

  lemma StepBumps(s: State, e: Event, st: Settings)
    requires Inv(s) && Enabled(s, e, st) && Bumps(s, e).Some?
    ensures var (h, n) := Bumps(s, e).value;
            h in s.hosts && h in Step(s, e, st).hosts && n < Next(Step(s, e, st), h)
  {
    if e.FinishMove? {
      assert TenantOk(s, s.tenants[e.t]) && MoveOk(s, s.tenants[e.t].move.value);
    }
  }

  lemma {:induction false} NextNeverDecreases(states: seq<State>, events: seq<Event>, st: Settings,
                                              h: HostId, i: nat, j: nat)
    requires Run(states, events, st) && i <= j < |states| && h in states[i].hosts
    ensures h in states[j].hosts && Next(states[i], h) <= Next(states[j], h)
  {
    if i < j {
      NextNeverDecreases(states, events, st, h, i, j - 1);
      RunKeepsInv(states, events, st, j - 1);
      StepMovesForward(states[j - 1], events[j - 1], st);
    }
  }

  ghost predicate IssuedBelowNext(s: State) {
    (forall k | 0 <= k < |s.issued| :: s.issued[k].0 in s.hosts && s.issued[k].1 < Next(s, s.issued[k].0)) &&
    (forall j, k | 0 <= j < k < |s.issued| :: s.issued[j] != s.issued[k])
  }

  lemma ForwardKeepsIssued(s: State, s': State)
    requires Forward(s, s') && IssuedBelowNext(s)
    ensures IssuedBelowNext(s')
  {
    assert forall k | 0 <= k < |s.issued| :: s'.issued[k] == s'.issued[..|s.issued|][k] == s.issued[k];
  }

  /** All numbers handed out on one host, by creates and by failover reservations, are pairwise
      distinct: on every run, under every interleaving, migrations and bumps included. */
  lemma {:induction false} IssuedNumbersAreDistinct(states: seq<State>, events: seq<Event>, st: Settings, n: nat)
    requires Run(states, events, st) && n < |states| && states[0].issued == []
    ensures IssuedBelowNext(states[n])
  {
    if n > 0 {
      IssuedNumbersAreDistinct(states, events, st, n - 1);
      RunKeepsInv(states, events, st, n - 1);
      StepMovesForward(states[n - 1], events[n - 1], st);
      ForwardKeepsIssued(states[n - 1], states[n]);
    }
  }

  /** After a bump with `n`, by a failover or by a migration, no later reservation on that host
      returns `n` or less. */
  lemma NoNumberBelowABump(states: seq<State>, events: seq<Event>, st: Settings, i: nat, j: nat)
    requires Run(states, events, st) && i < j < |events| && Bumps(states[i], events[i]).Some?
    requires |states[j + 1].issued| > |states[j].issued|
    requires states[j + 1].issued[|states[j].issued|].0 == Bumps(states[i], events[i]).value.0
    ensures states[j + 1].issued[|states[j].issued|].1 > Bumps(states[i], events[i]).value.1
  {
    RunKeepsInv(states, events, st, i);
    RunKeepsInv(states, events, st, j);
    StepBumps(states[i], events[i], st);
    NextNeverDecreases(states, events, st, Bumps(states[i], events[i]).value.0, i + 1, j);
    StepMovesForward(states[j], events[j], st);
  }

  // ---- Who holds which number ----

  /** Holders of a number: tenant rows (deleted ones too), creates between reservation and put,
      failover reservations not used yet. */
  datatype Holder = Row(t: nat) | Slot(c: nat) | Kept(p: (HostId, int))

  function Number(s: State, x: Holder): Option<(HostId, int)> {
    match x
    case Row(t) => if t < |s.tenants| && s.tenants[t].host.Some?
                   then Some((s.tenants[t].host.value, s.tenants[t].vmNum)) else None
    case Slot(c) => if c < |s.creates| && s.creates[c].pc.Holding?
                    then Some((s.creates[c].pc.host, s.creates[c].pc.vmNum)) else None
    case Kept(p) => if p in s.reserved then Some(p) else None
  }

  ghost predicate BelowNext(s: State, p: (HostId, int)) {
    p.0 in s.hosts && p.1 < Next(s, p.0)
  }

  ghost predicate NumbersApart(s: State) {
    (forall x :: Number(s, x).Some? ==> BelowNext(s, Number(s, x).value)) &&
    (forall x, y :: Number(s, x).Some? && x != y ==> Number(s, x) != Number(s, y))
  }

  /** The event gives a tenant a number that is not reserved for it: the one a migration read when it
      started, or the one a synchronous failover read from its snapshot of the hosts. */
  predicate Unreserved(s: State, e: Event) {
    e.FinishMove? || (e.Flip? && (e.target, e.vmNum) !in s.reserved)
  }

  /** No other holder has the number such an event gives. */
  ghost predicate Unheld(s: State, e: Event) {
    Unreserved(s, e) ==> forall x | x != Row(e.t) :: Number(s, x) != Bumps(s, e)
  }

  /** Where the number held after a step comes from: an old holder, or none: a number just handed
      out, or an unreserved one. */
  function Origin(s: State, e: Event, x: Holder): Option<Holder> {
    match e
    case Try(c) => if x == Slot(c) && !(c < |s.creates| && s.creates[c].pc.Holding?) then None else Some(x)
    case Put(c) => if x == Row(|s.tenants|) then Some(Slot(c)) else Some(x)
    case FinishMove(t) => if x == Row(t) then None else Some(x)
    case Flip(t, target, n) =>
      if x != Row(t) then Some(x) else if (target, n) in s.reserved then Some(Kept((target, n))) else None
    case ReserveFor(h) => if h in s.hosts && x == Kept((h, Next(s, h))) then None else Some(x)
    case _ => Some(x)
  }

  lemma OldHolders(s: State, e: Event, st: Settings, x: Holder)
    requires Enabled(s, e, st) && Number(Step(s, e, st), x).Some? && Origin(s, e, x).Some?
    ensures Number(s, Origin(s, e, x).value) == Number(Step(s, e, st), x)
  {
    if x.Row? { OldRows(s, e, st, x); } else { OldReservations(s, e, st, x); }
  }

  lemma OldRows(s: State, e: Event, st: Settings, x: Holder)
    requires x.Row? && Enabled(s, e, st) && Number(Step(s, e, st), x).Some? && Origin(s, e, x).Some?
    ensures Number(s, Origin(s, e, x).value) == Number(Step(s, e, st), x)
  {
  }

  lemma OldReservations(s: State, e: Event, st: Settings, x: Holder)
    requires !x.Row? && Enabled(s, e, st) && Number(Step(s, e, st), x).Some? && Origin(s, e, x).Some?
    ensures Number(s, Origin(s, e, x).value) == Number(Step(s, e, st), x)
  {
  }

  /** A new number is below `next_vm_num` after the step; one just handed out was not before. */
  lemma NewHolders(s: State, e: Event, st: Settings, x: Holder)
    requires Inv(s) && Enabled(s, e, st)
    requires Number(Step(s, e, st), x).Some? && Origin(s, e, x).None?
    ensures var p := Number(Step(s, e, st), x).value;
            p.0 in s.hosts && BelowNext(Step(s, e, st), p) &&
            if Unreserved(s, e) then x == Row(e.t) && Some(p) == Bumps(s, e) else !BelowNext(s, p)
  {
    if e.Try? {
      var k := s.creates[e.c];
      assert CreateOk(s, k) && k.picks[k.tried] in k.picks;
    } else if e.FinishMove? {
      assert TenantOk(s, s.tenants[e.t]) && MoveOk(s, s.tenants[e.t].move.value);
      StepBumps(s, e, st);
    } else if e.Flip? {
      StepBumps(s, e, st);
    }
  }

  lemma OriginsApart(s: State, e: Event, st: Settings, x: Holder, y: Holder)
    requires Enabled(s, e, st) && x != y
    requires Number(Step(s, e, st), x).Some? && Number(Step(s, e, st), y).Some?
    ensures Origin(s, e, x) != Origin(s, e, y)
  {
  }

  /** The number of one holder after a step: an old holder's, an unreserved one, or new. */
  ghost predicate Accounted(s: State, e: Event, s': State, x: Holder) {
    Number(s', x).Some? ==>
      BelowNext(s', Number(s', x).value) &&
      match Origin(s, e, x)
      case Some(o) => Number(s, o) == Number(s', x)
      case None =>
        if Unreserved(s, e) then x == Row(e.t) && Number(s', x) == Bumps(s, e)
        else !BelowNext(s, Number(s', x).value)
  }

  lemma StepAccounts(s: State, e: Event, st: Settings, x: Holder)
    requires Inv(s) && Enabled(s, e, st) && NumbersApart(s)
    ensures Accounted(s, e, Step(s, e, st), x)
  {
    if Number(Step(s, e, st), x).Some? {
      StepMovesForward(s, e, st);
      if Origin(s, e, x).Some? { OldHolders(s, e, st, x); } else { NewHolders(s, e, st, x); }
    }
  }

  lemma PairStaysApart(s: State, e: Event, s': State, x: Holder, y: Holder)
    requires Unheld(s, e) && NumbersApart(s) && x != y && Number(s', x).Some? && Number(s', y).Some?
    requires Accounted(s, e, s', x) && Accounted(s, e, s', y)
    requires Origin(s, e, x) != Origin(s, e, y)
    ensures Number(s', x) != Number(s', y)
  {
  }

  lemma StepKeepsNumbersApart(s: State, e: Event, st: Settings)
    requires Inv(s) && Enabled(s, e, st) && Unheld(s, e) && NumbersApart(s)
    ensures NumbersApart(Step(s, e, st))
  {
    var s' := Step(s, e, st);
    forall x ensures Accounted(s, e, s', x) && (Number(s', x).Some? ==> BelowNext(s', Number(s', x).value)) {
      StepAccounts(s, e, st, x);
    }
    forall x, y | Number(s', x).Some? && x != y ensures Number(s', x) != Number(s', y) {
      if Number(s', y).Some? {
        OriginsApart(s, e, st, x, y);
        PairStaysApart(s, e, s', x, y);
      }
    }
  }

  /** The exact condition: completing a migration, or a failover whose number is not reserved, keeps
      numbers unique if and only if no other tenant, create in flight or reserved failover holds the
      number it brings. */
  lemma UnreservedApartIff(s: State, e: Event, st: Settings)
    requires Inv(s) && Enabled(s, e, st) && Unreserved(s, e) && NumbersApart(s)
    ensures NumbersApart(Step(s, e, st)) <==> forall x | x != Row(e.t) :: Number(s, x) != Bumps(s, e)
  {
    var s' := Step(s, e, st);
    if forall x | x != Row(e.t) :: Number(s, x) != Bumps(s, e) {
      StepKeepsNumbersApart(s, e, st);
    } else {
      var x :| x != Row(e.t) && Number(s, x) == Bumps(s, e);
      assert Number(s', x) == Number(s', Row(e.t)) == Bumps(s, e);
    }
  }

  /** The same over whole runs: from a start without tenants, no two tenants of a host ever carry the
      same number, nor does a create or a failover in flight hold a tenant's, if and only if every
      migration that completes, and every failover that flips with a number it did not reserve,
      finds that number held by nobody else. */
  lemma VmNumbersAreUnique(states: seq<State>, events: seq<Event>, st: Settings)
    requires Run(states, events, st)
    requires states[0].tenants == [] && states[0].creates == [] && states[0].reserved == {}
    ensures (forall i | 0 <= i < |states| :: NumbersApart(states[i])) <==>
            (forall i | 0 <= i < |events| :: Unheld(states[i], events[i]))
  {
    if forall i | 0 <= i < |events| :: Unheld(states[i], events[i]) {
      forall i | 0 <= i < |states| ensures NumbersApart(states[i]) {
        NumbersStayApart(states, events, st, i);
      }
    }
    if forall i | 0 <= i < |states| :: NumbersApart(states[i]) {
      forall i | 0 <= i < |events| ensures Unheld(states[i], events[i]) {
        RunKeepsInv(states, events, st, i);
        if Unreserved(states[i], events[i]) {
          assert NumbersApart(states[i]) && NumbersApart(states[i + 1]);
          UnreservedApartIff(states[i], events[i], st);
        }
      }
    }
  }

  lemma {:induction false} NumbersStayApart(states: seq<State>, events: seq<Event>, st: Settings, n: nat)
    requires Run(states, events, st) && n < |states|
    requires states[0].tenants == [] && states[0].creates == [] && states[0].reserved == {}
    requires forall i | 0 <= i < n :: Unheld(states[i], events[i])
    ensures NumbersApart(states[n])
  {
    if n > 0 {
      NumbersStayApart(states, events, st, n - 1);
      RunKeepsInv(states, events, st, n - 1);
      StepKeepsNumbersApart(states[n - 1], events[n - 1], st);
    }
  }

  /** A migration's number is read, not reserved: two migrations started one after the other
      towards the same host end up there with the same number. */
  lemma TwoMovesCollide(s: State, t: nat, u: nat, target: HostId, st: Settings)
    requires Inv(s) && t != u && Enabled(s, StartMove(t, target), st) && Enabled(s, StartMove(u, target), st)
    ensures Enabled(Step(s, StartMove(t, target), st), StartMove(u, target), st)
    ensures var s2 := Step(Step(s, StartMove(t, target), st), StartMove(u, target), st);
            Enabled(s2, FinishMove(t), st) && Enabled(Step(s2, FinishMove(t), st), FinishMove(u), st) &&
            var s4 := Step(Step(s2, FinishMove(t), st), FinishMove(u), st);
            Number(s4, Row(t)) == Number(s4, Row(u)) == Some((target, Next(s, target)))
  {
  }

  /** So is the number of a synchronous failover: a create that reserves a slot after the detector's
      snapshot holds the number the failover then flips with. */
  lemma SnapshotNumberCollides(s: State, c: nat, t: nat, st: Settings)
    requires Inv(s) && NumbersApart(s) && Enabled(s, Try(c), st) && t < |s.tenants|
    requires Step(s, Try(c), st).creates[c].pc.Holding?
    ensures var h := s.creates[c].picks[s.creates[c].tried].id;
            h in s.hosts && h in Step(s, Try(c), st).hosts &&
            var s1 := Step(s, Try(c), st);
            Enabled(s1, Flip(t, h, Next(s, h)), st) && (h, Next(s, h)) !in s1.reserved &&
            var s2 := Step(s1, Flip(t, h, Next(s, h)), st);
            Number(s2, Row(t)) == Number(s2, Slot(c)) == Some((h, Next(s, h)))
  {
    var k := s.creates[c];
    var h := k.picks[k.tried].id;
    assert CreateOk(s, k) && k.picks[k.tried] in k.picks;
    var kept := Kept((h, Next(s, h)));
    assert Number(s, kept).Some? ==> BelowNext(s, Number(s, kept).value);
  }

  // ---- How a create ends ----

  /** The reservations a create won during the first `n` steps of a run. */
  ghost function Wins(states: seq<State>, events: seq<Event>, c: nat, n: nat): nat
    requires n < |states| && n <= |events|
  {
    if n == 0 then 0
    else Wins(states, events, c, n - 1) +
         (if events[n - 1] == Try(c) && states[n].issued != states[n - 1].issued then 1 else 0)
  }

  /** However often a create tries and whatever it races with, it books at most one slot in its
      life: exactly one when it places a tenant, one that it gave back when its clone was rolled
      back, and none when it ends with a pending tenant or a rejection. */
  lemma {:induction false} CreateBooksAtMostOnce(states: seq<State>, events: seq<Event>, st: Settings,
                                                 c: nat, n: nat)
    requires Run(states, events, st) && n < |states| && states[0].creates == []
    ensures if c < |states[n].creates| then Wins(states, events, c, n) == states[n].creates[c].bookings
            else Wins(states, events, c, n) == 0
    ensures c < |states[n].creates| ==>
              var k := states[n].creates[c];
              k.bookings - k.releases == (if k.pc.Holding? || k.pc.Cloning? || k.pc.Placed? then 1 else 0) &&
              k.releases == (if k.pc.Releasing? || k.pc.RolledBack? then 1 else 0)
  {
    RunKeepsInv(states, events, st, n);
    if c < |states[n].creates| { assert CreateOk(states[n], states[n].creates[c]); }
    if n > 0 {
      CreateBooksAtMostOnce(states, events, st, c, n - 1);
      BookingsAfter(states[n - 1], events[n - 1], st, c);
    }
  }

  lemma BookingsAfter(s: State, e: Event, st: Settings, c: nat)
    requires Enabled(s, e, st)
    ensures var s' := Step(s, e, st);
            |s.creates| <= |s'.creates| &&
            (c < |s.creates| ==>
               s'.creates[c].bookings == s.creates[c].bookings + (if e == Try(c) && s'.issued != s.issued then 1 else 0)) &&
            (|s.creates| <= c < |s'.creates| ==> s'.creates[c].bookings == 0)
  {
  }

  /** The reservation of candidate `q` of create `c` was tried and not granted at step `k`. */
  predicate TriedInVain(states: seq<State>, events: seq<Event>, st: Settings, c: nat, q: nat, k: nat)
    requires k < |events| < |states|
  {
    events[k] == Try(c) && c < |states[k].creates| && states[k].creates[c].tried == q &&
    q < |states[k].creates[c].picks| &&
    var k' := states[k].creates[c];
    !HostRows.Reserve(RowOf(states[k].hosts, k'.picks[q].id), k'.picks[q], k'.vcpu, k'.mem, st.cfg).Booked?
  }

  /** A create works through its candidates in order: each one it is past was tried and refused. */
  lemma {:induction false} PastCandidatesRefused(states: seq<State>, events: seq<Event>, st: Settings, c: nat,
                                                 i: nat, q: nat) returns (k: nat)
    requires Run(states, events, st) && i < |states| && states[0].creates == []
    requires c < |states[i].creates| && q < states[i].creates[c].tried && states[i].creates[c].pc.Trying?
    ensures k < i && TriedInVain(states, events, st, c, q, k)
    ensures states[k].creates[c].picks == states[i].creates[c].picks && states[k].creates[c].pin == states[i].creates[c].pin
  {
    ScanningTriedNone(states, events, st, c, i - 1);
    TryStep(states[i - 1], events[i - 1], st, c);
    if c < |states[i - 1].creates| && states[i - 1].creates[c].pc.Trying? && q < states[i - 1].creates[c].tried {
      k := PastCandidatesRefused(states, events, st, c, i - 1, q);
    } else {
      k := i - 1;
    }
  }

  lemma TryStep(s: State, e: Event, st: Settings, c: nat)
    requires Enabled(s, e, st) && c < |Step(s, e, st).creates| && Step(s, e, st).creates[c].pc.Trying?
    requires c < |s.creates| && s.creates[c].pc.Scanning? ==> s.creates[c].tried == 0
    ensures var k' := Step(s, e, st).creates[c];
            c < |s.creates| &&
            (s.creates[c].pc.Trying? ==>
               k'.picks == s.creates[c].picks && k'.pin == s.creates[c].pin &&
               (k'.tried == s.creates[c].tried ||
                (e == Try(c) && k'.tried == s.creates[c].tried + 1 && s.creates[c].tried < |s.creates[c].picks| &&
                 var p := s.creates[c].picks[s.creates[c].tried];
                 !HostRows.Reserve(RowOf(s.hosts, p.id), p, k'.vcpu, k'.mem, st.cfg).Booked?))) &&
            (!s.creates[c].pc.Trying? ==> s.creates[c].pc.Scanning? && k'.tried == 0)
  {
  }

  lemma {:induction false} ScanningTriedNone(states: seq<State>, events: seq<Event>, st: Settings, c: nat, i: nat)
    requires Run(states, events, st) && i < |states| && states[0].creates == []
    ensures c < |states[i].creates| && states[i].creates[c].pc.Scanning? ==> states[i].creates[c].tried == 0
  {
    if i > 0 {
      ScanningTriedNone(states, events, st, c, i - 1);
      if c < |states[i].creates| && states[i].creates[c].pc.Scanning? {
        ScanningStep(states[i - 1], events[i - 1], st, c);
      }
    }
  }

  lemma ScanningStep(s: State, e: Event, st: Settings, c: nat)
    requires Enabled(s, e, st) && c < |Step(s, e, st).creates| && Step(s, e, st).creates[c].pc.Scanning?
    ensures if c < |s.creates| then Step(s, e, st).creates[c] == s.creates[c] else Step(s, e, st).creates[c].tried == 0
  {
  }

  /** A create queues its tenant, or rejects it, only when it has run out of candidates: the pinned host,
      or each of the first max(1, attempts), refused the reservation when it was tried. */
  lemma GiveUpMeansRefused(states: seq<State>, events: seq<Event>, st: Settings, c: nat, i: nat, q: nat)
    returns (k: nat)
    requires Run(states, events, st) && i < |events| && states[0].creates == [] && events[i] == GiveUp(c)
    requires c < |states[i].creates| && q < |states[i].creates[c].picks|
    requires states[i].creates[c].pin.Some? || q < 1 || q < st.attempts
    ensures k < i && TriedInVain(states, events, st, c, q, k)
    ensures states[k].creates[c].picks == states[i].creates[c].picks
  {
    k := PastCandidatesRefused(states, events, st, c, i, q);
  }
}
