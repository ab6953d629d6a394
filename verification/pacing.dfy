/**
 * The rate-limit arithmetic of the scan (faction_revive_assistant.js:18,
 * :125, :138-145): the k-th lookup of a pass is due `API_DELAY * k`
 * milliseconds after the pass started, and the scan waits only for the
 * shortfall.
 */
module Pacing {

  /** Milliseconds between lookups, as budgeted from the start of the pass. */
  const ApiDelay: nat := 750

  function Max(a: int, b: int): int {
    if a < b then b else a
  }

  /**
   * The wait before the lookup numbered `count` (0-based) when the clock
   * reads `now` and the pass started at `runTime`.
   */
  function Delay(count: nat, runTime: nat, now: nat): (d: nat)
    requires runTime <= now
    ensures now + d == Max(now, runTime + ApiDelay * count)
    ensures d > 0 <==> now - runTime < ApiDelay * count
    ensures count == 0 ==> d == 0
  {
    var expectedElapsedTime := ApiDelay * count;
    var actualElapsedTime := now - runTime;
    if actualElapsedTime < expectedElapsedTime then expectedElapsedTime - actualElapsedTime else 0
  }
}
