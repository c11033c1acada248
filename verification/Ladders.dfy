/** The waits between attempts to bring a failing child process back. */
module Ladders {
  /** Seconds on a clock that never goes back. */
  type Time = int

  const MAX_FAILURES: nat := 5

  /** The waits after the first, second, third, and every later failure. */
  datatype Ladder = Ladder(first: nat, second: nat, third: nat, later: nat)

  /** php-fpm masters and Octane servers. */
  const BACKEND_LADDER := Ladder(2, 5, 15, 60)
  /** Dev servers and tunnels. */
  const SIDECAR_LADDER := Ladder(2, 10, 30, 60)

  function BackoffFor(l: Ladder, failures: nat): nat {
    if failures <= 1 then l.first else if failures == 2 then l.second else if failures == 3 then l.third else l.later
  }

  /** The ladders climb rung by rung. */
  lemma RungsAre(n: nat)
    requires 1 <= n <= 4
    ensures BackoffFor(BACKEND_LADDER, n) == [2, 5, 15, 60][n - 1]
    ensures BackoffFor(SIDECAR_LADDER, n) == [2, 10, 30, 60][n - 1]
  {
  }
}
