/** The catch-up loop both ends use: the server's `Game.prototype.run`
    (server/server.js:408-413) and the client's `update`
    (client/client.js:172-175) repeat a step while a due time is not past
    the clock, advancing the due time by a fixed interval each pass. */
module Timestep {

  /** How many passes `while (last <= now) { ...; last += interval; }` makes:
      none when `last` is already past `now`, else one for `last` and one for
      every further whole interval up to `now`. */
  function CatchUp(last: int, now: int, interval: int): (n: nat)
    requires interval > 0
    ensures last + n * interval > now
    ensures n > 0 ==> last + (n - 1) * interval <= now
  {
    if last > now then 0
    else
      var q := (now - last) / interval;
      assert now - last == q * interval + (now - last) % interval;
      assert last + (q + 1) * interval == last + q * interval + interval;
      q + 1
  }

  /** The step count is the only one that ends past `now` with its last step
      due no later than `now`. */
  lemma CatchUpUnique(last: int, now: int, interval: int, n: nat)
    requires interval > 0
    requires last + n * interval > now
    requires n > 0 ==> last + (n - 1) * interval <= now
    ensures n == CatchUp(last, now, interval)
  {
    var m := CatchUp(last, now, interval);
    if n < m {
      Scale(n, m - 1, interval);
    }
    if m < n {
      Scale(m, n - 1, interval);
    }
  }

  /** Multiplying by a positive interval keeps the order. */
  lemma Scale(a: int, b: int, interval: int)
    requires a <= b && interval > 0
    ensures a * interval <= b * interval
  {
    assert b * interval - a * interval == (b - a) * interval;
  }
}
