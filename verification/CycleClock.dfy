/** The busy wait of the driver.

    Time is counted in CPU cycles since an arbitrary origin. Every access to the
    cycle counter or to a pin completes `gap(t)` cycles after the access that
    completed at time `t`, with `1 <= gap(t) <= g`; `gap` is otherwise
    arbitrary, so a result for all `gap` covers every execution speed. */
module CycleClock {
  import opened CInt

  ghost predicate Steady(gap: nat -> nat, g: nat) {
    forall t: nat :: 1 <= gap(t) <= g
  }

  /** The number of cycles a wait really waits for: the first poll comes at least
      one cycle after the start, so waiting for 0 is waiting for 1. */
  function Effective(wait: nat): nat {
    if wait == 0 then 1 else wait
  }

  /** The shortest time from one pin access to the next with a wait in between: the
      wait, and one cycle each for its first counter access and the pin access. */
  function Least(wait: nat): nat {
    Effective(wait) + 2
  }

  /** How much longer than that it can take when each of the first counter access,
      the last poll and the pin access takes g cycles instead of one. */
  function Slack(g: nat): nat {
    if g == 0 then 0 else 3 * (g - 1)
  }

  /** The `WaitBitTime` loop: the first reading happens at `start`, and `done` is
      the time of the first later reading that sees at least `wait` cycles. */
  method WaitBitTime(gap: nat -> nat, g: nat, now: nat, wait: Word) returns (start: nat, done: nat)
    requires Steady(gap, g)
    requires wait + g < TWO32
    ensures start == now + gap(now)
    ensures start + Effective(wait) <= done < start + Effective(wait) + g
  {
    start := now + gap(now);
    var count := U32(start);
    done := start + gap(start);
    ElapsedSurvivesWrap(start, done);
    while U32(U32(done) - count) < wait
      invariant start < done < start + Effective(wait) + g
      invariant U32(U32(done) - count) == done - start
      decreases start + wait - done
    {
      done := done + gap(done);
      ElapsedSurvivesWrap(start, done);
    }
  }

  /** A wait followed by one pin access. */
  method WaitThenAccess(gap: nat -> nat, g: nat, now: nat, wait: Word) returns (at: nat)
    requires Steady(gap, g)
    requires wait + g < TWO32
    ensures now + Least(wait) <= at <= now + Least(wait) + Slack(g)
  {
    var start, done := WaitBitTime(gap, g, now, wait);
    at := done + gap(done);
  }
}
