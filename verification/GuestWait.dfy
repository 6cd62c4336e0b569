/** Waiting for a command to succeed inside a guest, against a deadline. */
module GuestWait {

  const GUEST_PROBE_TIMEOUT: real := 10.0
  const PAUSE: real := 2.0

  function Min(a: real, b: real): (r: real)
    ensures r <= a && r <= b && (r == a || r == b)
  {
    if a <= b then a else b
  }

  function Ceil(x: real): int {
    -((-x).Floor)
  }

  lemma CeilBound(x: real, n: int)
    requires n as real < x + 1.0
    ensures n <= Ceil(x)
  {
    assert (-x).Floor as real <= -x;
    assert (n - 1) as real < Ceil(x) as real;
  }

  /** Each probe is given ten seconds, or what is left, and the next one starts two seconds after it
      ended. */
  ghost predicate Spaced(starts: seq<real>, limits: seq<real>, timeout: real) {
    && |limits| == |starts| && (starts != [] ==> starts[0] == 0.0)
    && (forall k :: 0 <= k < |starts| ==>
          starts[k] < timeout && limits[k] == if timeout - starts[k] < 10.0 then timeout - starts[k] else 10.0)
    && (forall k :: 0 <= k < |starts| - 1 ==> starts[k] + 2.0 <= starts[k + 1] <= starts[k] + limits[k] + 2.0)
  }

  lemma SpacedNext(starts: seq<real>, limits: seq<real>, timeout: real, now: real, limit: real)
    requires Spaced(starts, limits, timeout) && now < timeout
    requires limit == if timeout - now < 10.0 then timeout - now else 10.0
    requires var n := |starts|;
             if n == 0 then now == 0.0 else starts[n - 1] + 2.0 <= now <= starts[n - 1] + limits[n - 1] + 2.0
    ensures Spaced(starts + [now], limits + [limit], timeout)
  {
  }

  lemma NoneSpaced(timeout: real)
    ensures Spaced([], [], timeout)
  {
  }

  /** `_wait_for_guest_command`, with probes that respect their timeout and sleeps that are exact.
      `probes` counts the commands started, `starts` says when, `limits` what timeout each was given;
      `notices` counts the messages printed, and `succeeded` is the outcome of the last probe. */
  method WaitForGuestCommand(timeout: real)
    returns (ok: bool, elapsed: real, probes: nat, notices: nat, succeeded: bool, ghost starts: seq<real>,
             ghost limits: seq<real>)
    ensures ok ==> succeeded && probes > 0
    ensures !ok ==> || (timeout <= 0.0 && probes == 0 && elapsed == 0.0)
                    || (elapsed == timeout && probes > 0 && !succeeded)
    ensures timeout >= 0.0 ==> 0.0 <= elapsed <= timeout
    ensures probes <= if timeout <= 0.0 then 0 else Ceil(timeout / PAUSE)
    ensures |starts| == |limits| == probes && Spaced(starts, limits, timeout)
    ensures probes > 0 ==> starts[probes - 1] <= elapsed <= starts[probes - 1] + limits[probes - 1] + 2.0
    ensures notices <= 1 && (notices == 1 <==> probes > 1 || (probes == 1 && !ok))
  {
    hide Min, Ceil, Spaced;
    NoneSpaced(timeout);
    var now := 0.0;
    var deadline := timeout;
    var waiting := false;
    ok, probes, notices, succeeded, starts, limits := false, 0, 0, false, [], [];
    if timeout > 0.0 {
      CeilBound(timeout / PAUSE, 0);
    }
    while deadline - now > 0.0
      invariant timeout >= 0.0 ==> 0.0 <= now <= timeout
      invariant timeout <= 0.0 ==> now == 0.0 && probes == 0
      invariant now < deadline ==> probes as real * PAUSE <= now
      invariant timeout > 0.0 ==> probes <= Ceil(timeout / PAUSE)
      invariant !succeeded && (probes > 0 <==> waiting) && (now > 0.0 ==> probes > 0)
      invariant |starts| == |limits| == probes && Spaced(starts, limits, timeout)
      invariant probes > 0 ==> starts[probes - 1] <= now <= starts[probes - 1] + limits[probes - 1] + 2.0
      invariant probes > 0 && now < deadline ==> starts[probes - 1] + 2.0 <= now
      invariant notices == if waiting then 1 else 0
      decreases Ceil(timeout / PAUSE) - probes
    {
      var remaining := deadline - now;
      var limit := Min(GUEST_PROBE_TIMEOUT, remaining);
      var took: real :| 0.0 <= took <= limit;
      succeeded := *;
      ghost var started := now;
      assert probes as real * PAUSE <= started < timeout;
      CeilBound(timeout / PAUSE, probes + 1);
      SpacedNext(starts, limits, timeout, now, limit);
      starts, limits := starts + [now], limits + [limit];
      now := now + took;
      probes := probes + 1;
      if succeeded {
        return true, now, probes, notices, succeeded, starts, limits;
      }
      if !waiting {
        notices := notices + 1;
        waiting := true;
      }
      now := now + Min(PAUSE, deadline - now);
    }
    elapsed := now;
  }
}
