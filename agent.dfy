/** The plugin instance for one agent process: the dispatch flag, the
    listeners it registered and the effects it had, as logs. Timers, the
    messenger and the clock are not run; arming a timer appends it to
    `armed`, a messenger call appends to `sent`, and the clock and the cron
    parser are parameters. */
module Agent {
  import opened Values
  import opened Errors
  import opened Cron
  import opened Registry
  import opened Arming
  import opened Execution
  import opened Lifecycle

  /** What `runSchedule` returns: a rejected promise, or the task's own
      promise for the entry found. */
  datatype RunResult = RejectedWith(error: Error) | TaskPromise(entry: Entry)

  class App {
    /** The loaded schedule map, in property order. */
    const schedules: seq<Entry>
    /** `app.disableSchedule` (undefined, hence false, until the first write). */
    var disableSchedule: bool
    /** Whether the `once('egg-ready')` listener has run. */
    var readyHandled: bool
    /** Keys with a `messenger.on(key, ...)` listener, in registration order. */
    var subscriptions: seq<string>
    /** Timers armed so far, in arming order. */
    var armed: seq<Trigger>
    /** Indices in `armed` of one-shot timers that have fired. */
    var spent: set<nat>
    /** Keys passed to `messenger.send`, in order. */
    var sent: seq<string>
    /** Keys whose send was skipped ("did not sent"), in order. */
    var skipped: seq<string>
    /** One report per message handled by a listener, in order. */
    var reports: seq<Report>

    ghost predicate Valid()
      reads this
    {
      && WellFormed(schedules)
      && subscriptions == EnabledKeys(schedules)
      && (!readyHandled ==> armed == [])
      && (forall t <- armed :: t.key in subscriptions)
      && (forall j <- spent :: j < |armed|)
      && (forall k <- sent :: k in subscriptions)
      && (forall k <- skipped :: k in subscriptions)
    }

    function GateOf(): Gate
      reads this
    {
      Gate(disableSchedule, readyHandled)
    }

    /** The plugin's set-up: take the loaded map and subscribe, with
        listenScheduleMessage, to the key of every schedule not disabled. */
    constructor (loaded: seq<Entry>)
      requires WellFormed(loaded)
      ensures Valid()
      ensures schedules == loaded && GateOf() == Initial
      ensures subscriptions == EnabledKeys(loaded)
      ensures armed == [] && spent == {} && sent == [] && skipped == [] && reports == []
    {
      schedules := loaded;
      disableSchedule, readyHandled := false, false;
      subscriptions := [];
      armed, spent, sent, skipped, reports := [], {}, [], [], [];
      new;
      ListenScheduleMessage();
    }

    /** listenScheduleMessage: one listener per schedule that is not disabled. */
    method ListenScheduleMessage()
      requires subscriptions == []
      modifies this`subscriptions
      ensures subscriptions == EnabledKeys(schedules)
    {
      var i := 0;
      while i < |schedules|
        invariant 0 <= i <= |schedules|
        invariant subscriptions == EnabledKeys(schedules[..i])
      {
        var s := schedules[i];
        assert schedules[..i + 1][..i] == schedules[..i];
        if Enabled(s) {
          subscriptions := subscriptions + [s.key];
        }
        i := i + 1;
      }
      assert schedules[..i] == schedules;
    }

    /** sendMessage(app, 'send', key): one messenger call, or one skip while
        the flag is set; nothing else changes. */
    method SendMessage(key: string)
      modifies this`sent, this`skipped
      ensures old(disableSchedule) ==> skipped == old(skipped) + [key] && sent == old(sent)
      ensures !old(disableSchedule) ==> sent == old(sent) + [key] && skipped == old(skipped)
    {
      if disableSchedule {
        skipped := skipped + [key];
        return;
      }
      sent := sent + [key];
    }

    /** The `close` listener. */
    method Close()
      requires Valid()
      modifies this`disableSchedule
      ensures Valid()
      ensures disableSchedule
      ensures GateOf() == Step(old(GateOf()), Event.Close)
    {
      disableSchedule := true;
    }

    /** An `egg-ready` event. The listener was registered with `once`, so only
        the first one runs startSchedule; later ones do nothing. */
    method EggReady(parse: JsValue -> CronParse, now: int) returns (err: Option<Error>)
      requires Valid()
      modifies this
      ensures Valid()
      ensures GateOf() == Step(old(GateOf()), Event.Ready)
      ensures old(readyHandled) ==>
                err == None && armed == old(armed) && sent == old(sent) && skipped == old(skipped)
      ensures !old(readyHandled) ==>
                armed == StartArming(schedules, parse, now).triggers &&
                err == StartArming(schedules, parse, now).error
      ensures subscriptions == old(subscriptions) && spent == old(spent)
      ensures sent == old(sent) && skipped == old(skipped) && reports == old(reports)
    {
      if readyHandled {
        return None;
      }
      readyHandled := true;
      err := StartSchedule(parse, now);
    }

    /** startSchedule: clear the flag, then arm every schedule that is not
        disabled, in map order, until one throws. */
    method StartSchedule(parse: JsValue -> CronParse, now: int) returns (err: Option<Error>)
      requires forall t <- armed :: t.key in EnabledKeys(schedules)
      modifies this`disableSchedule, this`armed
      ensures forall t <- armed :: t.key in EnabledKeys(schedules)
      ensures !disableSchedule
      ensures armed == old(armed) + StartArming(schedules, parse, now).triggers
      ensures err == StartArming(schedules, parse, now).error
    {
      disableSchedule := false;
      var i := 0;
      while i < |schedules|
        invariant 0 <= i <= |schedules|
        invariant !disableSchedule
        invariant armed == old(armed) + StartArming(schedules[..i], parse, now).triggers
        invariant StartArming(schedules[..i], parse, now).error.None?
      {
        ghost var before := armed;
        err := ArmSchedule(schedules[i], parse, now);
        LoopStep(old(armed), schedules, i, parse, now, before, armed, err);
        if err.Some? {
          ArmedKeysSubscribed(old(armed), schedules, parse, now);
          return;
        }
        i := i + 1;
      }
      assert schedules[..i] == schedules;
      ArmedKeysSubscribed(old(armed), schedules, parse, now);
      err := None;
    }

    /** The body of startSchedule's loop for one schedule: skip it if it is
        disabled, throw EggScheduleError if its type has no handler, and
        otherwise hand it to the handler, which hands it to baseHander. */
    method ArmSchedule(e: Entry, parse: JsValue -> CronParse, now: int) returns (err: Option<Error>)
      modifies this`armed
      ensures armed == old(armed) + EntryArming(e, parse, now).triggers
      ensures err == EntryArming(e, parse, now).error
    {
      if !Enabled(e) {
        return None;
      }
      var kind := ResolveHandler(TypeText(e));
      if kind.None? {
        return Some(UnknownTypeError(TypeText(e)));
      }
      err := BaseHandler(e.key, e.schedule, parse, now);
    }

    /** baseHander(schedule, send): arm an interval timer, a cron chain and an
        immediate send, as the schedule asks, one after another. */
    method BaseHandler(key: string, s: Config, parse: JsValue -> CronParse, now: int) returns (err: Option<Error>)
      modifies this`armed
      ensures armed == old(armed) + BaseArming(key, s, parse, now).triggers
      ensures err == BaseArming(key, s, parse, now).error
    {
      if !Truthy(s.interval) && !Truthy(s.cron) {
        return Some(MissingRuleError());
      }
      if Truthy(s.interval) {
        armed := armed + [IntervalTimer(key, s.interval)];
      }
      if Truthy(s.cron) {
        var parsed := parse(s.cron);
        if parsed.ParseFailed? {
          BaseArmingCronFailure(key, s, parse, now);
          return Some(CronParseError(s.cron, parsed.error));
        }
        var cursor, nextTick, delay := StartCron(Cursor(parsed.ticks, 0), now);
        armed := armed + [CronTimer(key, cursor, delay)];
        if Truthy(s.immediate) {
          armed := armed + [ImmediateSend(key)];
        }
        BaseArmingCronParsed(key, s, parse, now);
      } else {
        if Truthy(s.immediate) {
          armed := armed + [ImmediateSend(key)];
        }
        BaseArmingWithoutCron(key, s, parse, now);
      }
      err := None;
    }

    /** A timer fires. An interval timer may fire any number of times; an
        immediate send and each cron timeout fire once. Every fire makes one
        sendMessage call for the trigger's key, whichever handler type armed
        it; a cron timeout then re-arms its chain from a fresh clock reading. */
    method FireTrigger(i: nat, now: int) returns (fired: bool)
      requires Valid() && i < |armed|
      modifies this`armed, this`spent, this`sent, this`skipped
      ensures Valid()
      ensures fired <==> old(armed[i]).IntervalTimer? || i !in old(spent)
      ensures fired && old(disableSchedule) ==> skipped == old(skipped) + [old(armed[i]).key] && sent == old(sent)
      ensures fired && !old(disableSchedule) ==> sent == old(sent) + [old(armed[i]).key] && skipped == old(skipped)
      ensures !fired ==> sent == old(sent) && skipped == old(skipped) && armed == old(armed) && spent == old(spent)
      ensures old(armed[i]).IntervalTimer? ==> spent == old(spent)
      ensures fired && !old(armed[i]).IntervalTimer? ==> spent == old(spent) + {i}
      ensures fired && !old(armed[i]).CronTimer? ==> armed == old(armed)
      ensures fired && old(armed[i]).CronTimer? ==>
                var c := old(armed[i]).cursor;
                exists next: Cursor, delay: int ::
                  && armed == old(armed) + [CronTimer(old(armed[i]).key, next, delay)]
                  && next.ticks == c.ticks && next.pos == SelectFrom(c.ticks, c.pos, now) + 1
                  && delay > 0 && now + delay == c.ticks.At(next.pos - 1)
    {
      var t := armed[i];
      if !t.IntervalTimer? && i in spent {
        return false;
      }
      if !t.IntervalTimer? {
        spent := spent + {i};
      }
      assert t in armed && t.key in subscriptions;
      SendMessage(t.key);
      if t.CronTimer? {
        var next, nextTick, delay := StartCron(t.cursor, now);
        armed := armed + [CronTimer(t.key, next, delay)];
        assert armed == old(armed) + [CronTimer(t.key, next, delay)];
      }
      fired := true;
    }

    /** A message for `key` reaches this process: the listener registered for
        that key (if any) runs the task and reports how it went. A failing
        task changes nothing but the reports. */
    method Deliver(key: string, outcome: TaskOutcome)
      requires Valid()
      modifies this`reports
      ensures Valid()
      ensures key in subscriptions ==> reports == old(reports) + [Classify(key, outcome)]
      ensures key !in subscriptions ==> reports == old(reports)
    {
      if key in subscriptions {
        reports := reports + [Classify(key, outcome)];
      }
    }

    /** runSchedule for an already resolved path: a rejection naming the path
        when no schedule is loaded under it; otherwise the schedule's task is
        run directly (disabled or not), without any timer or messenger call. */
    function RunSchedule(path: string): (r: RunResult)
      ensures r.RejectedWith? <==> forall i :: 0 <= i < |schedules| ==> schedules[i].path != path
      ensures r.RejectedWith? ==> r.error == Error("Error", Tag + "Cannot find schedule " + path)
      ensures r.TaskPromise? ==> r.entry in schedules && r.entry.path == path
    {
      match Find(schedules, path)
      case None => RejectedWith(NotFoundError(path))
      case Some(e) => TaskPromise(e)
    }
  }

  /** startSchedule only adds timers for subscribed keys. */
  lemma ArmedKeysSubscribed(before: seq<Trigger>, es: seq<Entry>, parse: JsValue -> CronParse, now: int)
    requires forall t <- before :: t.key in EnabledKeys(es)
    ensures forall t <- before + StartArming(es, parse, now).triggers :: t.key in EnabledKeys(es)
  {
    ArmsOnlyEnabled(es, parse, now);
  }

  /** The prefix of the map up to entry `i` arms what the prefix up to `i`
      arms followed by what entry `i` arms, unless the prefix threw. */
  lemma FirstStepsAgree(es: seq<Entry>, i: nat, parse: JsValue -> CronParse, now: int)
    requires i < |es| && StartArming(es[..i], parse, now).error.None?
    ensures StartArming(es[..i + 1], parse, now) ==
              Arming(StartArming(es[..i], parse, now).triggers + EntryArming(es[i], parse, now).triggers,
                     EntryArming(es[i], parse, now).error)
  {
    var a := Steps(es[..i + 1], parse, now);
    assert a[..i] == Steps(es[..i], parse, now);
  }

  /** One pass of startSchedule's loop: arming entry `i` after the prefix
      before it either extends the prefix by one, or, when entry `i` throws,
      completes the whole loop. */
  lemma LoopStep(base: seq<Trigger>, es: seq<Entry>, i: nat, parse: JsValue -> CronParse, now: int,
                 before: seq<Trigger>, after: seq<Trigger>, err: Option<Error>)
    requires i < |es| && StartArming(es[..i], parse, now).error.None?
    requires before == base + StartArming(es[..i], parse, now).triggers
    requires after == before + EntryArming(es[i], parse, now).triggers
    requires err == EntryArming(es[i], parse, now).error
    ensures err.None? ==>
              after == base + StartArming(es[..i + 1], parse, now).triggers &&
              StartArming(es[..i + 1], parse, now).error.None?
    ensures err.Some? ==>
              after == base + StartArming(es, parse, now).triggers &&
              err == StartArming(es, parse, now).error
  {
    var done := StartArming(es[..i], parse, now);
    var step := EntryArming(es[i], parse, now);
    FirstStepsAgree(es, i, parse, now);
    assert after == base + (done.triggers + step.triggers);
    if err.Some? {
      FailureEndsLoop(es, i, parse, now);
    }
  }

  /** When entry `i` throws, the whole loop ends with what the prefix up to and
      including `i` armed. */
  lemma FailureEndsLoop(es: seq<Entry>, i: nat, parse: JsValue -> CronParse, now: int)
    requires i < |es| && StartArming(es[..i], parse, now).error.None?
    requires EntryArming(es[i], parse, now).error.Some?
    ensures StartArming(es, parse, now) == StartArming(es[..i + 1], parse, now)
  {
    FirstFailureStops(es, i, parse, now);
    FirstStepsAgree(es, i, parse, now);
  }
}
