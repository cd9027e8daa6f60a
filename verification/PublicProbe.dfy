/** The public reachability gate of migration and failover. */
module PublicProbe {

  /** One poll: an HTTP status, or no answer (refused, timed out). */
  datatype Sample = Status(code: int) | NoAnswer

  predicate ReachableStatus(code: int) {
    200 <= code < 400 || code == 401 || code == 403
  }

  predicate Reachable(s: Sample) {
    s.Status? && ReachableStatus(s.code)
  }

  /** Success, redirects and "log in first" count; not found, server errors and silence do not. */
  lemma ReachableExactly(s: Sample)
    ensures Reachable(s) <==> exists code :: s == Status(code) && (code / 100 == 2 || code / 100 == 3 || code in {401, 403})
  {
    if s.Status? && (s.code / 100 == 2 || s.code / 100 == 3 || s.code in {401, 403}) {
      assert s == Status(s.code);
    }
  }

  function Needed(configured: int): nat {
    if configured < 1 then 1 else configured
  }

  /** The `n` samples before position `end` are all reachable. */
  predicate GoodRun(samples: seq<Sample>, n: nat, end: int) {
    n <= end <= |samples| && forall i | end - n <= i < end :: Reachable(samples[i])
  }

  /** `_verify_dashboard_reachable_via_alb` on the samples polled before the deadline: it passes
      exactly when they contain enough consecutive reachable ones, and stops at the first such
      run; any other answer starts the count again. */
  method VerifyDashboard(configured: bool, samples: seq<Sample>, consecutive: int) returns (ok: bool, polled: nat)
    ensures var needed := if consecutive < 1 then 1 else consecutive;
            (ok <==> configured && exists end :: GoodRun(samples, needed, end)) &&
            (ok ==> GoodRun(samples, needed, polled) &&
                    forall end | 0 <= end < polled :: !GoodRun(samples, needed, end))
    ensures configured && !ok ==> polled == |samples|
    ensures !configured ==> polled == 0
  {
    polled := 0;
    if !configured {
      return false, 0;
    }
    var needed := Needed(consecutive);
    var streak := 0;
    while polled < |samples|
      invariant polled <= |samples| && 0 <= streak < needed && streak <= polled
      invariant GoodRun(samples, streak, polled)
      invariant streak < polled ==> !Reachable(samples[polled - streak - 1])
      invariant forall end | 0 <= end <= polled :: !GoodRun(samples, needed, end)
    {
      var good := Reachable(samples[polled]);
      polled := polled + 1;
      if good {
        streak := streak + 1;
        if streak >= needed {
          assert GoodRun(samples, Needed(consecutive), polled);
          return true, polled;
        }
        if streak < polled {
          assert !Reachable(samples[polled - streak - 1]);
        }
      } else {
        streak := 0;
        assert !Reachable(samples[polled - 1]);
      }
    }
    ok := false;
  }
}
