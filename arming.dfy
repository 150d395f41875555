/** What startSchedule and baseHander arm, as values: the triggers each
    schedule gets, in the order they are armed, and the error that stops the
    loop. The class App performs these steps one by one and is proved to
    arm exactly what these functions say. */
module Arming {
  import opened Values
  import opened Errors
  import opened Cron
  import opened Registry

  /** What the cron parser makes of a `cron` value: an iterator over its
      ticks, or the error it throws. */
  datatype CronParse = Parsed(ticks: TickStream) | ParseFailed(error: Error)

  /** A timer armed for a schedule. Every trigger's callback is the same
      `sendMessage(app, 'send', key)`, whether the schedule is of type
      `worker` or `all`, so a trigger records only the key.
      - IntervalTimer: `setInterval(send, ms(every))`;
      - CronTimer: `setTimeout` for `delay` ms, after which the chain sends and
        re-arms from `cursor`;
      - ImmediateSend: `setImmediate(send)`. */
  datatype Trigger =
    | IntervalTimer(key: string, every: JsValue)
    | CronTimer(key: string, cursor: Cursor, delay: int)
    | ImmediateSend(key: string)

  /** The position of a trigger kind in baseHander's arming order. */
  function Rank(t: Trigger): nat
  {
    match t
    case IntervalTimer(_, _) => 0
    case CronTimer(_, _, _) => 1
    case ImmediateSend(_) => 2
  }

  /** The triggers armed, in order, and the error thrown, if any. */
  datatype Arming = Arming(triggers: seq<Trigger>, error: Option<Error>)

  /** The first cron timer of a chain: the iterator is new, so the cursor
      starts at the first tick. */
  function FirstCronTimer(key: string, ticks: TickStream, now: int): (t: Trigger)
    ensures t.CronTimer? && t.key == key
    ensures t.cursor.ticks == ticks && t.cursor.pos > 0
    ensures t.delay > 0 && now + t.delay == ticks.At(t.cursor.pos - 1)
    ensures forall k :: 0 <= k < t.cursor.pos - 1 ==> ticks.At(k) <= now
  {
    var j := SelectFrom(ticks, 0, now);
    CronTimer(key, Cursor(ticks, j + 1), ticks.At(j) - now)
  }

  /** baseHander(schedule, send) for the schedule with key `key`, with the
      cron parser `parse` and the clock reading `now`. */
  function BaseArming(key: string, s: Config, parse: JsValue -> CronParse, now: int): (r: Arming)
    // neither rule: the error, and nothing armed, whatever `immediate` is
    ensures !Truthy(s.interval) && !Truthy(s.cron) ==> r == Arming([], Some(MissingRuleError()))
    ensures forall t <- r.triggers :: t.key == key
    ensures forall t <- r.triggers :: t.CronTimer? ==> t.delay > 0
  {
    if !Truthy(s.interval) && !Truthy(s.cron) then Arming([], Some(MissingRuleError()))
    else
      var interval := if Truthy(s.interval) then [IntervalTimer(key, s.interval)] else [];
      var immediate := if Truthy(s.immediate) then [ImmediateSend(key)] else [];
      if !Truthy(s.cron) then Arming(interval + immediate, None)
      else match parse(s.cron)
        case ParseFailed(e) => Arming(interval, Some(CronParseError(s.cron, e)))
        case Parsed(ticks) => Arming(interval + [FirstCronTimer(key, ticks, now)] + immediate, None)
  }

  /** A sequence of triggers in which each kind occurs at most once, in the
      order interval, cron, immediate. */
  ghost predicate InArmingOrder(ts: seq<Trigger>)
  {
    forall i, j :: 0 <= i < j < |ts| ==> Rank(ts[i]) < Rank(ts[j])
  }

  /** baseHander arms at most one timer of each kind, in the order interval,
      cron, immediate; with at least one rule, it arms the interval timer if
      `interval` is set, the cron chain if `cron` is set and parses, and the
      immediate send if `immediate` is set and nothing was thrown. */
  lemma BaseArmingKinds(key: string, s: Config, parse: JsValue -> CronParse, now: int)
    requires Truthy(s.interval) || Truthy(s.cron)
    ensures InArmingOrder(BaseArming(key, s, parse, now).triggers)
    ensures var r := BaseArming(key, s, parse, now);
            && ((exists t <- r.triggers :: t.IntervalTimer?) <==> Truthy(s.interval))
            && ((exists t <- r.triggers :: t.CronTimer?) <==> Truthy(s.cron) && parse(s.cron).Parsed?)
            && ((exists t <- r.triggers :: t.ImmediateSend?) <==> r.error.None? && Truthy(s.immediate))
            && (r.error.Some? <==> Truthy(s.cron) && parse(s.cron).ParseFailed?)
  {
    var r := BaseArming(key, s, parse, now);
    var interval := if Truthy(s.interval) then [IntervalTimer(key, s.interval)] else [];
    var immediate := if Truthy(s.immediate) then [ImmediateSend(key)] else [];
    if !Truthy(s.cron) {
      BaseArmingWithoutCron(key, s, parse, now);
      assert r.triggers == interval + [] + immediate;
      KindsInOrder(interval, [], immediate);
    } else if parse(s.cron).ParseFailed? {
      BaseArmingCronFailure(key, s, parse, now);
      assert r.triggers == interval + [] + [];
      KindsInOrder(interval, [], []);
    } else {
      var c := FirstCronTimer(key, parse(s.cron).ticks, now);
      BaseArmingCronParsed(key, s, parse, now);
      KindsInOrder(interval, [c], immediate);
    }
  }

  /** Without a cron rule, the interval timer and the immediate send. */
  lemma BaseArmingWithoutCron(key: string, s: Config, parse: JsValue -> CronParse, now: int)
    requires Truthy(s.interval) && !Truthy(s.cron)
    ensures BaseArming(key, s, parse, now) ==
              Arming([IntervalTimer(key, s.interval)] + (if Truthy(s.immediate) then [ImmediateSend(key)] else []), None)
  {
  }

  /** With a cron rule that parses, the cron chain's first timer goes between
      the interval timer and the immediate send. */
  lemma BaseArmingCronParsed(key: string, s: Config, parse: JsValue -> CronParse, now: int)
    requires Truthy(s.cron) && parse(s.cron).Parsed?
    ensures BaseArming(key, s, parse, now) ==
              Arming((if Truthy(s.interval) then [IntervalTimer(key, s.interval)] else []) +
                     [FirstCronTimer(key, parse(s.cron).ticks, now)] +
                     (if Truthy(s.immediate) then [ImmediateSend(key)] else []), None)
  {
  }

  /** At most one interval timer, then at most one cron timer, then at most
      one immediate send: that is arming order, and each kind is present
      exactly when its part is not empty. */
  lemma KindsInOrder(a: seq<Trigger>, b: seq<Trigger>, c: seq<Trigger>)
    requires |a| <= 1 && |b| <= 1 && |c| <= 1
    requires forall t <- a :: t.IntervalTimer?
    requires forall t <- b :: t.CronTimer?
    requires forall t <- c :: t.ImmediateSend?
    ensures InArmingOrder(a + b + c)
    ensures (exists t <- a + b + c :: t.IntervalTimer?) <==> a != []
    ensures (exists t <- a + b + c :: t.CronTimer?) <==> b != []
    ensures (exists t <- a + b + c :: t.ImmediateSend?) <==> c != []
  {
    var ts := a + b + c;
    assert forall t <- ts :: t in a || t in b || t in c;
    if a != [] { assert ts[0] == a[0]; }
    if b != [] { assert ts[|a|] == b[0]; }
    if c != [] { assert ts[|a| + |b|] == c[0]; }
    forall i | 0 <= i < |ts|
      ensures Rank(ts[i]) == (if i < |a| then 0 else if i < |a| + |b| then 1 else 2)
    {
      if i < |a| {
        assert ts[i] == a[i] && a[i] in a;
      } else if i < |a| + |b| {
        assert ts[i] == b[i - |a|] && b[i - |a|] in b;
      } else {
        assert ts[i] == c[i - |a| - |b|] && c[i - |a| - |b|] in c;
      }
    }
    assert forall i :: 0 <= i < |ts| ==> Rank(ts[i]) == (if i < |a| then 0 else if i < |a| + |b| then 1 else 2);
  }

  /** A cron parse error is re-thrown with the expression in its message, after
      the interval timer (if any) has been armed and before anything else. */
  lemma BaseArmingCronFailure(key: string, s: Config, parse: JsValue -> CronParse, now: int)
    requires Truthy(s.cron) && parse(s.cron).ParseFailed?
    ensures var r := BaseArming(key, s, parse, now);
            && r.error == Some(CronParseError(s.cron, parse(s.cron).error))
            && r.triggers == (if Truthy(s.interval) then [IntervalTimer(key, s.interval)] else [])
  {
  }

  /** The cron chain's first timer: armed from a new iterator, after pulling
      at least one tick, for a positive delay that ends exactly on the
      selected tick, which is the first one after `now`. */
  lemma BaseArmingCronTimer(key: string, s: Config, parse: JsValue -> CronParse, now: int, t: Trigger)
    requires t in BaseArming(key, s, parse, now).triggers && t.CronTimer?
    ensures Truthy(s.cron) && parse(s.cron).Parsed?
    ensures t.cursor.ticks == parse(s.cron).ticks && t.cursor.pos > 0
    ensures t.cursor.ticks.At(t.cursor.pos - 1) == now + t.delay && t.delay > 0
    ensures forall k :: 0 <= k < t.cursor.pos - 1 ==> t.cursor.ticks.At(k) <= now
  {
  }

  /** The text `handlers[type]` looks up and the error message shows. */
  function TypeText(e: Entry): (r: string)
    ensures e.schedule.kind.Str? ==> r == e.schedule.kind.s
    ensures e.schedule.kind == Undefined ==> r == "undefined"
  {
    ToText(e.schedule.kind)
  }

  /** One iteration of startSchedule's loop, for entry `e`. */
  function EntryArming(e: Entry, parse: JsValue -> CronParse, now: int): (r: Arming)
    ensures !Enabled(e) ==> r == Arming([], None)
    ensures Enabled(e) && ResolveHandler(TypeText(e)).None? ==>
              r == Arming([], Some(UnknownTypeError(TypeText(e))))
    ensures Enabled(e) && ResolveHandler(TypeText(e)).Some? ==> r == BaseArming(e.key, e.schedule, parse, now)
    ensures forall t <- r.triggers :: t.key == e.key && Enabled(e)
  {
    if !Enabled(e) then Arming([], None)
    else match ResolveHandler(TypeText(e))
      case None => Arming([], Some(UnknownTypeError(TypeText(e))))
      case Some(_) => BaseArming(e.key, e.schedule, parse, now)
  }

  /** Arming steps taken one after another until one throws: what earlier
      steps armed stays armed, and later steps are not taken. */
  function Sequential(steps: seq<Arming>): (r: Arming)
    ensures steps == [] ==> r == Arming([], None)
    decreases |steps|
  {
    if steps == [] then Arming([], None)
    else
      var done := Sequential(steps[..|steps| - 1]);
      var last := steps[|steps| - 1];
      if done.error.Some? then done else Arming(done.triggers + last.triggers, last.error)
  }

  /** Every trigger the steps arm together was armed by one of them. */
  lemma {:induction false} SequentialArmsFromSteps(steps: seq<Arming>)
    ensures forall t <- Sequential(steps).triggers :: exists i :: 0 <= i < |steps| && t in steps[i].triggers
    decreases |steps|
  {
    if steps != [] {
      var p := steps[..|steps| - 1];
      SequentialArmsFromSteps(p);
      assert forall i :: 0 <= i < |p| ==> p[i] == steps[i];
    }
  }

  /** What the steps arm when none of them throws: each step's triggers, in
      step order. */
  function AllTriggers(steps: seq<Arming>): (r: seq<Trigger>)
    ensures forall i, t :: 0 <= i < |steps| && t in steps[i].triggers ==> t in r
    decreases |steps|
  {
    if steps == [] then []
    else
      var p := steps[..|steps| - 1];
      assert forall i :: 0 <= i < |p| ==> p[i] == steps[i];
      AllTriggers(p) + steps[|steps| - 1].triggers
  }

  /** Steps that all succeed arm every one of their triggers, in order. */
  lemma {:induction false} NoFailureArmsEveryStep(steps: seq<Arming>)
    requires Sequential(steps).error.None?
    ensures Sequential(steps).triggers == AllTriggers(steps)
    decreases |steps|
  {
    if steps != [] {
      NoFailureArmsEveryStep(steps[..|steps| - 1]);
    }
  }

  /** What each entry of the map arms on its own, in map order. */
  function Steps(es: seq<Entry>, parse: JsValue -> CronParse, now: int): (r: seq<Arming>)
    ensures |r| == |es|
    ensures forall i :: 0 <= i < |es| ==> r[i] == EntryArming(es[i], parse, now)
  {
    seq(|es|, i requires 0 <= i < |es| => EntryArming(es[i], parse, now))
  }

  /** startSchedule's loop over the schedule map `es`: entries are handled in
      order until one throws; what was armed before stays armed. */
  function StartArming(es: seq<Entry>, parse: JsValue -> CronParse, now: int): (r: Arming)
    ensures es == [] ==> r == Arming([], None)
  {
    Sequential(Steps(es, parse, now))
  }

  /** Only schedules that are not disabled get timers, and every cron timer
      startSchedule arms has a positive delay. */
  lemma ArmsOnlyEnabled(es: seq<Entry>, parse: JsValue -> CronParse, now: int)
    ensures forall t <- StartArming(es, parse, now).triggers :: t.key in EnabledKeys(es)
    ensures forall t <- StartArming(es, parse, now).triggers :: t.CronTimer? ==> t.delay > 0
  {
    SequentialArmsFromSteps(Steps(es, parse, now));
  }

  /** Once a step has thrown, later steps are never taken. */
  lemma {:induction false} ErrorIsFinal(a: seq<Arming>, b: seq<Arming>)
    requires Sequential(a).error.Some?
    ensures Sequential(a + b) == Sequential(a)
    decreases |b|
  {
    if b != [] {
      var b' := b[..|b| - 1];
      assert (a + b)[..|a + b| - 1] == a + b';
      ErrorIsFinal(a, b');
    } else {
      assert a + b == a;
    }
  }

  /** The steps succeed together exactly when each of them does. */
  lemma {:induction false} NoFailureIffEachSucceeds(a: seq<Arming>)
    ensures Sequential(a).error.None? <==> forall i :: 0 <= i < |a| ==> a[i].error.None?
    decreases |a|
  {
    if a != [] {
      var p := a[..|a| - 1];
      NoFailureIffEachSucceeds(p);
      assert forall i :: 0 <= i < |p| ==> p[i] == a[i];
    }
  }

  /** The first step that throws decides the error; the steps before it keep
      what they armed. */
  lemma FirstFailureDecides(a: seq<Arming>, i: nat)
    requires i < |a| && Sequential(a[..i]).error.None? && a[i].error.Some?
    ensures Sequential(a) == Arming(Sequential(a[..i]).triggers + a[i].triggers, a[i].error)
  {
    var p := a[..i + 1];
    LastStepThrows(a, i);
    assert a == p + a[i + 1..];
    ErrorIsFinal(p, a[i + 1..]);
  }

  /** The steps up to a first throwing step end with its error, after
      everything the steps before it armed and what it armed itself. */
  lemma LastStepThrows(a: seq<Arming>, i: nat)
    requires i < |a| && Sequential(a[..i]).error.None? && a[i].error.Some?
    ensures Sequential(a[..i + 1]) == Arming(Sequential(a[..i]).triggers + a[i].triggers, a[i].error)
  {
    var p := a[..i + 1];
    assert p[..|p| - 1] == a[..i] && p[|p| - 1] == a[i];
  }

  /** A step that arms nothing and throws nothing can be left out. */
  lemma {:induction false} EmptyStepIgnored(a: seq<Arming>, b: seq<Arming>)
    ensures Sequential(a + [Arming([], None)] + b) == Sequential(a + b)
    decreases |b|
  {
    var e := Arming([], None);
    if b == [] {
      assert (a + [e])[..|a|] == a;
      assert a + [e] + b == a + [e] && a + b == a;
      assert Sequential(a).triggers + [] == Sequential(a).triggers;
    } else {
      var b' := b[..|b| - 1];
      assert (a + [e] + b)[..|a + [e] + b| - 1] == a + [e] + b';
      assert (a + b)[..|a + b| - 1] == a + b';
      assert (a + [e] + b)[|a + [e] + b| - 1] == (a + b)[|a + b| - 1];
      EmptyStepIgnored(a, b');
    }
  }

  /** What each part of a split map arms is what it would arm on its own. */
  lemma StepsSplit(p: seq<Entry>, e: Entry, q: seq<Entry>, parse: JsValue -> CronParse, now: int)
    ensures Steps(p + [e] + q, parse, now) ==
              Steps(p, parse, now) + [EntryArming(e, parse, now)] + Steps(q, parse, now)
    ensures Steps(p + q, parse, now) == Steps(p, parse, now) + Steps(q, parse, now)
  {
  }

  /** The loop throws exactly when some entry throws; then the first entry that
      throws decides the error, and everything armed for the entries before it
      stays armed. */
  lemma FirstFailureStops(es: seq<Entry>, i: nat, parse: JsValue -> CronParse, now: int)
    requires i < |es|
    requires StartArming(es[..i], parse, now).error.None?
    requires EntryArming(es[i], parse, now).error.Some?
    ensures StartArming(es, parse, now) ==
              Arming(StartArming(es[..i], parse, now).triggers + EntryArming(es[i], parse, now).triggers,
                     EntryArming(es[i], parse, now).error)
  {
    var a := Steps(es, parse, now);
    assert a[..i] == Steps(es[..i], parse, now);
    FirstFailureDecides(a, i);
  }

  /** The loop completes exactly when no entry throws, and then it has armed
      every trigger of every entry, in map order. */
  lemma NoFailureArmsAll(es: seq<Entry>, parse: JsValue -> CronParse, now: int)
    ensures StartArming(es, parse, now).error.None? <==>
              forall i :: 0 <= i < |es| ==> EntryArming(es[i], parse, now).error.None?
    ensures StartArming(es, parse, now).error.None? ==>
              StartArming(es, parse, now).triggers == AllTriggers(Steps(es, parse, now))
    ensures StartArming(es, parse, now).error.None? ==>
              forall i, t :: 0 <= i < |es| && t in EntryArming(es[i], parse, now).triggers ==>
                t in StartArming(es, parse, now).triggers
  {
    NoFailureIffEachSucceeds(Steps(es, parse, now));
    if StartArming(es, parse, now).error.None? {
      NoFailureArmsEveryStep(Steps(es, parse, now));
    }
  }

  /** The first schedule that is not disabled and whose type has no handler
      raises EggScheduleError naming the type; the schedules before it stay
      armed. */
  lemma UnknownTypeStops(es: seq<Entry>, i: nat, parse: JsValue -> CronParse, now: int)
    requires i < |es| && Enabled(es[i]) && ResolveHandler(TypeText(es[i])).None?
    requires StartArming(es[..i], parse, now).error.None?
    ensures StartArming(es, parse, now) ==
              Arming(StartArming(es[..i], parse, now).triggers,
                     Some(Error("EggScheduleError", "schedule type [" + TypeText(es[i]) + "] is not defined")))
  {
    FirstFailureStops(es, i, parse, now);
    assert EntryArming(es[i], parse, now).triggers == [];
  }

  /** Entries that arm alike can stand for each other anywhere in the map. */
  lemma ReplaceEntry(p: seq<Entry>, e: Entry, e': Entry, q: seq<Entry>, parse: JsValue -> CronParse, now: int)
    requires EntryArming(e, parse, now) == EntryArming(e', parse, now)
    ensures StartArming(p + [e] + q, parse, now) == StartArming(p + [e'] + q, parse, now)
  {
    StepsSplit(p, e, q, parse, now);
    StepsSplit(p, e', q, parse, now);
  }

  /** startSchedule never looks at the type (or anything else) of a disabled
      schedule: any two disabled entries can stand for each other. */
  lemma DisabledTypeNeverRead(p: seq<Entry>, e: Entry, e': Entry, q: seq<Entry>,
                              parse: JsValue -> CronParse, now: int)
    requires !Enabled(e) && !Enabled(e')
    ensures StartArming(p + [e] + q, parse, now) == StartArming(p + [e'] + q, parse, now)
  {
    ReplaceEntry(p, e, e', q, parse, now);
  }

  /** A disabled schedule has no effect at all on what startSchedule does. */
  lemma DisabledEntryIgnored(p: seq<Entry>, e: Entry, q: seq<Entry>, parse: JsValue -> CronParse, now: int)
    requires !Enabled(e)
    ensures StartArming(p + [e] + q, parse, now) == StartArming(p + q, parse, now)
  {
    StepsSplit(p, e, q, parse, now);
    EmptyStepIgnored(Steps(p, parse, now), Steps(q, parse, now));
  }

  /** The types `worker` and `all` arm exactly the same timers: turning one
      into the other changes nothing startSchedule does. */
  lemma WorkerAndAllArmAlike(p: seq<Entry>, e: Entry, q: seq<Entry>, parse: JsValue -> CronParse, now: int)
    requires TypeText(e) == "worker"
    ensures var e' := Entry(e.path, e.key, e.schedule.(kind := Str("all")));
            StartArming(p + [e] + q, parse, now) == StartArming(p + [e'] + q, parse, now)
  {
    var e' := Entry(e.path, e.key, e.schedule.(kind := Str("all")));
    assert TypeText(e') == "all";
    ReplaceEntry(p, e, e', q, parse, now);
  }
}
