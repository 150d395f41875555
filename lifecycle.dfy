/** The dispatch gate: `app.disableSchedule`, written by startSchedule (run by
    the first `egg-ready` event, through `messenger.once`) and by every
    `close` event. */
module Lifecycle {

  datatype Event = Ready | Close

  /** The flag and whether the `once` listener for `egg-ready` was used up. */
  datatype Gate = Gate(disabled: bool, readyHandled: bool)

  /** Before any event: the flag is undefined, which reads as false. */
  const Initial := Gate(false, false)

  /** The effect of one event on the gate. */
  function Step(g: Gate, e: Event): (r: Gate)
    ensures e == Close ==> r.disabled
    ensures e == Ready && g.readyHandled ==> r == g
    ensures r.readyHandled <==> g.readyHandled || e == Ready
  {
    match e
    case Ready => if g.readyHandled then g else Gate(false, true)
    case Close => Gate(true, g.readyHandled)
  }

  /** The gate after a sequence of events. */
  function Replay(g: Gate, es: seq<Event>): Gate
    decreases |es|
  {
    if es == [] then g else Step(Replay(g, es[..|es| - 1]), es[|es| - 1])
  }

  /** How many events wrote `false` to the flag. */
  function Enablings(g: Gate, es: seq<Event>): nat
    decreases |es|
  {
    if es == [] then 0
    else
      var before := Replay(g, es[..|es| - 1]);
      Enablings(g, es[..|es| - 1]) + (if es[|es| - 1] == Ready && !before.readyHandled then 1 else 0)
  }

  /** `false` is written at most once, by the first `egg-ready`, and never
      again once that listener is used up. */
  lemma {:induction false} EnabledAtMostOnce(g: Gate, es: seq<Event>)
    ensures Enablings(g, es) == (if !g.readyHandled && Replay(g, es).readyHandled then 1 else 0)
    ensures g.readyHandled ==> Replay(g, es).readyHandled
    decreases |es|
  {
    if es != [] {
      EnabledAtMostOnce(g, es[..|es| - 1]);
    }
  }

  /** After the first `egg-ready`, a `close` is final: no later event, a
      repeated `egg-ready` included, turns dispatch back on. */
  lemma {:induction false} CloseAfterReadyIsFinal(g: Gate, es: seq<Event>, rest: seq<Event>)
    requires Replay(g, es).readyHandled
    ensures Replay(g, es + [Close] + rest).disabled
    ensures Replay(g, es + [Close] + rest).readyHandled
    decreases |rest|
  {
    if rest == [] {
      assert (es + [Close] + rest)[..|es|] == es;
    } else {
      var rest' := rest[..|rest| - 1];
      assert (es + [Close] + rest)[..|es + [Close] + rest| - 1] == es + [Close] + rest';
      CloseAfterReadyIsFinal(g, es, rest');
    }
  }

  /** A `close` that comes before the first `egg-ready` does not last: after
      any events that have not yet used up the `once` listener (closes
      included), the first `egg-ready` clears the flag again. */
  lemma CloseBeforeReadyIsUndone(g: Gate, es: seq<Event>)
    requires !Replay(g, es).readyHandled
    ensures !Replay(g, es + [Ready]).disabled
    ensures Replay(g, es + [Ready]).readyHandled
  {
    assert (es + [Ready])[..|es|] == es;
  }
}
