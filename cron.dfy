/** Next-tick selection of a cron chain (startCron). The cron-expression
    iterator is abstracted to a strictly increasing stream of timestamps
    (milliseconds) with a cursor: `next()` yields the tick under the cursor
    and moves the cursor one place on. */
module Cron {

  /** The ticks a parsed cron expression yields, in order, for ever: the
      first tick, then each next tick `gap(i) + 1` milliseconds after the
      previous one. Every strictly increasing sequence of integers has this
      form (see FromIncreasing), and every stream of this form is strictly
      increasing (see AtIncreasing). */
  datatype TickStream = TickStream(first: int, gap: nat -> nat)
  {
    /** The `i`-th tick. */
    function At(i: nat): int
      decreases i
    {
      if i == 0 then first else At(i - 1) + gap(i - 1) + 1
    }
  }

  /** Later ticks are strictly later, by at least one millisecond per step. */
  lemma {:induction false} AtIncreasing(ticks: TickStream, i: nat, j: nat)
    ensures i <= j ==> ticks.At(j) - ticks.At(i) >= j - i
    ensures i < j ==> ticks.At(i) < ticks.At(j)
    decreases if i <= j then j - i else 0
  {
    if i < j {
      AtIncreasing(ticks, i, j - 1);
    }
  }

  /** The milliseconds strictly between two consecutive values of `f`. */
  function GapOf(f: nat -> int, i: nat): nat
  {
    if f(i) < f(i + 1) then f(i + 1) - f(i) - 1 else 0
  }

  /** The stream whose ticks are those of a strictly increasing `f`. */
  function FromIncreasing(f: nat -> int): TickStream
  {
    TickStream(f(0), (i: nat) => GapOf(f, i))
  }

  /** FromIncreasing loses nothing: its ticks are exactly the values of `f`. */
  lemma {:induction false} FromIncreasingAt(f: nat -> int, i: nat)
    requires forall i: nat, j: nat :: i < j ==> f(i) < f(j)
    ensures FromIncreasing(f).At(i) == f(i)
    decreases i
  {
    if i > 0 {
      FromIncreasingAt(f, i - 1);
      var ticks := FromIncreasing(f);
      assert f(i - 1) < f(i);
      assert ticks.gap(i - 1) == GapOf(f, i - 1) == f(i) - f(i - 1) - 1;
      assert ticks.At(i) == ticks.At(i - 1) + ticks.gap(i - 1) + 1;
    }
  }

  /** A cron iterator: its tick stream and how many ticks were pulled. */
  datatype Cursor = Cursor(ticks: TickStream, pos: nat)
  {
    /** `iterator.next()`: the tick under the cursor and the advanced iterator.
        The iterator keeps its ticks, the tick yielded is the last one pulled,
        and the next pull yields a strictly later tick. */
    function Next(): (r: (int, Cursor))
      ensures r.1.ticks == ticks && r.1.pos == pos + 1
      ensures r.0 == r.1.ticks.At(r.1.pos - 1)
      ensures r.0 < r.1.ticks.At(r.1.pos)
    {
      (ticks.At(pos), Cursor(ticks, pos + 1))
    }
  }

  /** The index of the tick the do-while loop of startCron stops at, starting
      from cursor position `from`: the first tick at or after `from` that lies
      strictly after `now`. */
  function SelectFrom(ticks: TickStream, from: nat, now: int): (j: nat)
    ensures from <= j
    ensures ticks.At(j) > now
    ensures forall k :: from <= k < j ==> ticks.At(k) <= now
    decreases now - ticks.At(from)
  {
    if ticks.At(from) > now then from else SelectFrom(ticks, from + 1, now)
  }

  /** startCron's loop: pull ticks until one lies strictly after `now`, then
      arm a timer for `nextTick - now`. Returns the advanced iterator, the
      selected tick and the delay. */
  method StartCron(it: Cursor, now: int) returns (next: Cursor, nextTick: int, delay: int)
    ensures next.ticks == it.ticks
    ensures it.pos < next.pos
    ensures next.pos == SelectFrom(it.ticks, it.pos, now) + 1
    ensures nextTick == it.ticks.At(next.pos - 1) && nextTick > now
    ensures forall k :: it.pos <= k < next.pos - 1 ==> it.ticks.At(k) <= now
    ensures delay > 0 && now + delay == nextTick
  {
    var cur := it;
    var pulled := cur.Next();
    nextTick, cur := pulled.0, pulled.1;
    while now >= nextTick
      invariant cur.ticks == it.ticks && it.pos < cur.pos
      invariant nextTick == it.ticks.At(cur.pos - 1)
      invariant forall k :: it.pos <= k < cur.pos - 1 ==> it.ticks.At(k) <= now
      decreases now - nextTick
    {
      pulled := cur.Next();
      nextTick, cur := pulled.0, pulled.1;
    }
    delay := nextTick - now;
    next := cur;
  }

  /** The selected tick is the earliest tick after `now` from the cursor on:
      the loop never skips past a tick it should have fired at. */
  lemma SelectIsEarliest(ticks: TickStream, from: nat, now: int, k: nat)
    requires from <= k && ticks.At(k) > now
    ensures ticks.At(SelectFrom(ticks, from, now)) <= ticks.At(k)
  {
    var j := SelectFrom(ticks, from, now);
    if j < k {
      AtIncreasing(ticks, j, k);
    }
  }

  /** Re-arming after a fire (with a fresh `now`, from where the previous
      selection left the cursor) always selects a strictly later tick: a
      chain never fires the same tick twice. */
  lemma ReArmAdvances(ticks: TickStream, from: nat, now1: int, now2: int)
    ensures var j1 := SelectFrom(ticks, from, now1);
            ticks.At(SelectFrom(ticks, j1 + 1, now2)) > ticks.At(j1)
  {
    var j1 := SelectFrom(ticks, from, now1);
    AtIncreasing(ticks, j1, SelectFrom(ticks, j1 + 1, now2));
  }

  /** A cron chain whose ticks are the multiples of `period` (for example
      every minute), started at any `now` in period `q` (so `period * q <= now
      < period * (q + 1)`) from a cursor no later than that period, fires at
      the next period boundary, not one full period after `now`. */
  lemma PeriodicSelectsNextBoundary(ticks: TickStream, period: int, from: nat, now: int, q: nat)
    requires period > 0
    requires forall i: nat :: ticks.At(i) == period * i
    requires from <= q && period * q <= now < period * (q + 1)
    ensures SelectFrom(ticks, from, now) == q + 1
    ensures ticks.At(SelectFrom(ticks, from, now)) == period * (q + 1)
  {
    var j := SelectFrom(ticks, from, now);
    AtIncreasing(ticks, j, q);
    SelectIsEarliest(ticks, from, now, q + 1);
    AtIncreasing(ticks, q + 1, j);
  }

  /** An every-minute chain registered at second 45 of some minute first
      fires fifteen seconds later, at the next minute boundary. */
  lemma EveryMinuteFromSecond45(ticks: TickStream, minute: nat, from: nat)
    requires forall i: nat :: ticks.At(i) == 60000 * i
    requires from <= minute
    ensures var j := SelectFrom(ticks, from, 60000 * minute + 45000);
            ticks.At(j) == 60000 * (minute + 1) && ticks.At(j) - (60000 * minute + 45000) == 15000
  {
    PeriodicSelectsNextBoundary(ticks, 60000, from, 60000 * minute + 45000, minute);
  }

  /** The largest delay Node.js timers honour: 2^31 - 1 milliseconds, about
      24.8 days. */
  const TimeoutMax: int := 0x7FFF_FFFF

  /** The delay a Node.js `setTimeout` or `setInterval` actually waits for a
      requested delay: one outside 1 .. TimeoutMax becomes 1 millisecond. */
  function NodeTimerDelay(requested: int): (r: int)
    ensures 1 <= r <= TimeoutMax
    ensures 1 <= requested <= TimeoutMax ==> r == requested
    ensures requested > TimeoutMax ==> r == 1
  {
    if 1 <= requested <= TimeoutMax then requested else 1
  }

  /** As written, startCron passes `nextTick - now` straight to `setTimeout`.
      When the selected tick is more than TimeoutMax away, the timer fires
      after 1 ms, and the re-arm at that moment moves on to the following
      tick, which is again more than TimeoutMax away: the chain fires every
      millisecond and passes every tick without waiting for it. */
  lemma FarTickFiresEarly(ticks: TickStream, from: nat, now: int)
    requires ticks.At(SelectFrom(ticks, from, now)) - now > TimeoutMax
    ensures var j := SelectFrom(ticks, from, now);
            var fired := now + NodeTimerDelay(ticks.At(j) - now);
            && fired == now + 1 && fired < ticks.At(j)
            && SelectFrom(ticks, j + 1, fired) == j + 1
            && ticks.At(j + 1) - fired > TimeoutMax
  {
    var j := SelectFrom(ticks, from, now);
    AtIncreasing(ticks, j, j + 1);
  }

  /** The sum of a sequence of delays. */
  function Total(ds: seq<int>): int
  {
    if ds == [] then 0 else ds[0] + Total(ds[1..])
  }

  /** A delay waited the way the chain evidently intends: in timeouts of at
      most TimeoutMax each, which the runtime honours unchanged, and which
      together end exactly `delay` milliseconds later. */
  function WaitPieces(delay: int): (ps: seq<int>)
    requires delay > 0
    ensures |ps| > 0
    ensures forall p <- ps :: 1 <= p <= TimeoutMax && NodeTimerDelay(p) == p
    ensures Total(ps) == delay
    decreases delay
  {
    if delay <= TimeoutMax then [delay]
    else
      var rest := WaitPieces(delay - TimeoutMax);
      assert ([TimeoutMax] + rest)[1..] == rest;
      [TimeoutMax] + rest
  }
}
