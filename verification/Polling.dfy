/** The polling loop of tests/x509/svid.go against any probe results, clock and cancellation. */
module Polling {
  import opened Wrappers

  /**
   The k-th reading of a clock in milliseconds: the 0th fixes the deadline, the others follow one
   probe each, and between two of those the loop waits 100 ms or more.
   */
  ghost predicate Ticks(clock: nat -> int) {
    && clock(0) <= clock(1)
    && (forall k: nat | k >= 1 :: clock(k) + 100 <= clock(k + 1))
  }

  datatype End = Found(ids: seq<string>) | TimedOut | Cancelled

  ghost predicate Hit(probe: Option<seq<string>>, want: string) {
    probe.Some? && want in probe.value
  }

  /** After k waits the clock has moved on by at least 100 k milliseconds. */
  lemma {:induction false} TicksAddUp(clock: nat -> int, k: nat)
    requires Ticks(clock) && k >= 1
    ensures clock(0) + 100 * (k - 1) <= clock(k)
  {
    if k > 1 {
      TicksAddUp(clock, k - 1);
      assert clock(k - 1) + 100 <= clock((k - 1) + 1);
    }
  }

  /** A poll that is still within its timeout after n rounds has made few of them. */
  lemma RoundsAreBounded(clock: nat -> int, timeout: nat, n: nat)
    requires Ticks(clock) && n >= 1 && clock(n) <= clock(0) + timeout
    ensures n <= timeout / 100 + 1
  {
    TicksAddUp(clock, n);
  }

  /**
   `probes` probes are made, at least one and at most timeout / 100 + 2. The loop returns a result
   if and only if its last probe succeeded with the wanted ID, none before it having done so.
   */
  method ProbeUntilSPIFFEID(probe: nat -> Option<seq<string>>, want: string, timeout: nat, clock: nat -> int, cancelled: nat -> bool)
      returns (end: End, probes: nat)
    requires Ticks(clock)
    ensures 1 <= probes <= timeout / 100 + 2
    ensures end.Found? <==> Hit(probe(probes), want)
    ensures end.Found? ==> probe(probes) == Some(end.ids)
    ensures forall k | 1 <= k < probes :: !Hit(probe(k), want) && clock(k) <= clock(0) + timeout && !cancelled(k)
    ensures end.TimedOut? <==> !Hit(probe(probes), want) && clock(probes) > clock(0) + timeout
    ensures end.Cancelled? <==>
              !Hit(probe(probes), want) && clock(probes) <= clock(0) + timeout && cancelled(probes)
  {
    var deadline := clock(0) + timeout;
    probes := 0;
    while true
      invariant probes > 0 ==> clock(probes) <= deadline
      invariant forall k | 1 <= k <= probes :: !Hit(probe(k), want) && clock(k) <= deadline && !cancelled(k)
      decreases timeout / 100 + 2 - probes
    {
      if probes > 0 {
        RoundsAreBounded(clock, timeout, probes);
      }
      probes := probes + 1;
      var result := probe(probes);
      if result.Some? {
        for i := 0 to |result.value|
          invariant want !in result.value[..i]
        {
          if result.value[i] == want {
            return Found(result.value), probes;
          }
        }
        assert result.value[..|result.value|] == result.value;
      }
      if clock(probes) > deadline {
        return TimedOut, probes;
      }
      if cancelled(probes) {
        return Cancelled, probes;
      }
    }
  }
}
