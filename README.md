# nodinx-schedule: a verified model of the agent-side scheduler

nodinx-schedule is a scheduler plugin. In the process that loads the plugin it does four things:

- it subscribes one messenger listener for each schedule that is not disabled;
- on the first `egg-ready` event it validates every schedule's type and arms its timers (an interval timer, a cron chain, an immediate send);
- when a timer fires it sends the schedule's key through the messenger, unless the `disableSchedule` flag is set;
- when a message for a key arrives it runs the task and logs whether it succeeded or failed.

`runSchedule` looks up a schedule by its path and runs it on demand.

The model is split by concern. All of it lives in `app.js`:

| module | what it holds |
|---|---|
| `Values` | JavaScript values as the configuration holds them: truthiness and `String(v)` |
| `Errors` | every error the plugin raises or logs, with its exact name and message |
| `Cron` | `startCron`'s tick selection. The `cron-parser` iterator is a strictly increasing tick stream with a cursor. `StartCron` is the do-while loop, proved against the function `SelectFrom` |
| `Registry` | the loaded schedule map (a sequence in property order), the subscribed keys, the handler table and the path lookup of `runSchedule` |
| `Arming` | what `baseHander` and `startSchedule` arm, as values. Each schedule gets a list of triggers and possibly an error, and the loop stops at the first error |
| `Execution` | what the message listener makes of a task's outcome |
| `Lifecycle` | the `disableSchedule` flag under `egg-ready` and `close` events |
| `Agent` | class `App`, the plugin instance, described below |

The fields of class `App`:

- `disableSchedule`, the dispatch flag;
- the subscriptions;
- the armed timers;
- the messenger calls made and the sends skipped;
- the reports of the message listener.

Its methods follow the source's functions one by one. Each is proved to change its state exactly as the value-level functions in `Arming`, `Cron` and `Execution` say. Those functions carry the lemmas about the plugin's behaviour. Where a finding below shows the code going wrong, the class uses the corrected definition; the code as written is modelled beside it (see "## Findings").

Timers, the clock, the cron parser and the messenger are not run. Arming a timer appends a `Trigger` to `App.armed`. A timer firing is the method `App.FireTrigger`. A messenger call appends the key to `App.sent`. The clock reading `now` and the cron parser `parse` are parameters.

## Behaviour as written

Apart from the three findings below, the model follows the code, including these points where the code does less than a reader might expect:

- The flag starts `undefined` (`Lifecycle.Initial`), but that value is never read: timers are armed only by `startSchedule`, after it has written `false`. So no fire can happen before the first `egg-ready` (`App.Valid` keeps `armed` empty until then).
- A `close` that comes before the first `egg-ready` is undone: `startSchedule` writes `false` again (`Lifecycle.CloseBeforeReadyIsUndone`). After the first `egg-ready`, a `close` is final (`Lifecycle.CloseAfterReadyIsFinal`).
- An unknown schedule type stops the loop part-way. Schedules handled before it stay armed (`Arming.UnknownTypeStops`). The error message names the type, not the schedule's key.
- A cron parse error names the cron expression but not the schedule's key.
- For the findings, class `App` follows the corrected definitions:
  - `App.ArmSchedule` resolves types with `Registry.ResolveHandler`, so a type such as `constructor` raises EggScheduleError. As written it calls `Object` and carries on (`Registry.LookupAsWritten`).
  - `App.Deliver` records `Execution.Classify`, so a primitive rejection is contained. As written the catch handler throws (`Execution.ClassifyAsWritten`).
  - An armed cron timer keeps its full delay. As written, Node.js cuts a delay over 2147483647 ms to 1 ms (`Cron.FarTickFiresEarly`).

## Model

| member | source | states |
|---|---|---|
| Values.Truthy | app.js:136 | JavaScript truthiness, as every `if (x)` and `!x` test of a configuration field reads it: falsy exactly for `undefined`, `null`, `false`, `0` and `''` |
| Values.ToText | app.js:150 | `String(v)` as a template literal inserts it: a string is itself, a truthy non-string value gives non-empty text, and a number below 10^21 in magnitude is written in plain decimal digits, with a leading `-` exactly when it is negative |
| Errors.Tagged | app.js:68 | the `[nodinx-schedule] ` tag goes in front of the message and can be taken off again: the tag is a prefix and the rest is the message |
| Errors.MissingRuleError | app.js:137 | the plain Error `[nodinx-schedule] schedule.interval or schedule.cron must be present`: the tag, then the fixed message |
| Errors.UnknownTypeError | app.js:34-35 | an EggScheduleError whose message is `schedule type [<type>] is not defined`, from which the type can be read back |
| Errors.NotFoundError | app.js:65-68 | the plain Error `[nodinx-schedule] Cannot find schedule <path>` |
| Errors.CronParseError | app.js:149-151 | the parser's error is re-thrown with the same name |
| Errors.CronParseErrorKeepsCause | app.js:150 | the re-thrown message is the tag, `parse cron instruction(<cron>) error: ` and then the parser's own message, which can be read back unchanged |
| Errors.TaskFailure | app.js:103-105 | a failed task's error is logged with its name unchanged |
| Errors.TaskFailureKeepsCause | app.js:104 | the logged message is `[nodinx-schedule] <key> excute error. ` followed by the task's own message, which can be read back unchanged |
| Cron.AtIncreasing | app.js:164-166 | the modelled iterator yields strictly increasing ticks, at least one millisecond apart per step |
| Cron.FromIncreasingAt | app.js:164-166 | every strictly increasing timestamp sequence is a tick stream of the model, with exactly its values, so the abstraction loses no iterator |
| Cron.Cursor.Next | app.js:165 | `interval.next()` keeps the iterator's ticks, advances the cursor by one and yields the last tick pulled; the next pull yields a strictly later tick |
| Cron.SelectFrom | app.js:164-166 | the index the do-while stops at is at or after the cursor, and its tick is strictly after `now`. Every tick pulled before it is at or before `now` |
| Cron.StartCron | app.js:161-172 | the loop pulls at least one tick and stops at `SelectFrom`'s index. The final tick is after `now`, and all earlier pulled ticks are at or before it. The delay `nextTick - now` is positive, and the advanced iterator is returned for the re-arm |
| Cron.SelectIsEarliest | app.js:164-166 | the selected tick is the earliest tick after `now` from the cursor on, so no due tick is skipped |
| Cron.ReArmAdvances | app.js:168-171 | re-arming from where the last selection left the cursor, with any fresh `now`, selects a strictly later tick, so a chain never fires the same tick twice |
| Cron.PeriodicSelectsNextBoundary | app.js:161-172 | for ticks at the multiples of a period, a start anywhere inside period `q` fires at the start of period `q + 1` |
| Cron.NodeTimerDelay | app.js:171 | the delay a Node.js timer actually waits: a requested delay in 1 .. 2147483647 ms unchanged, any larger one 1 ms |
| Cron.FarTickFiresEarly | app.js:168-171 | as written, a chain whose selected tick is more than 2147483647 ms away fires 1 ms later, before the tick. The re-arm then moves on to the following tick, which is again too far away, so the chain fires every millisecond |
| Cron.WaitPieces | app.js:171 | the intended wait for a positive delay: timeouts of 1 .. 2147483647 ms each, which the runtime honours unchanged, that add up to exactly the delay |
| Cron.EveryMinuteFromSecond45 | app.js:161-172 | an every-minute chain started at second 45 fires 15000 ms later, at the next minute |
| Registry.Enabled | app.js:29 | a schedule runs exactly when `schedule.disable` is falsy: one without the field runs, one with `disable: true` does not |
| Registry.EnabledKeys | app.js:84-91 | the keys subscribed are exactly the keys of the schedules that are not disabled |
| Registry.DisabledNotSubscribed | app.js:86 | a disabled schedule's key gets no listener |
| Registry.ResolveHandler | app.js:17-20 | the handler table literal has exactly the types `worker` and `all`; every other type has no handler |
| Registry.LookupAsWritten | app.js:32 | `handlers[type]` on a plain object also finds the properties inherited from `Object.prototype` |
| Registry.PassesGuardAsWritten | app.js:33 | as written, the `!handler` guard lets through exactly `worker`, `all` and the `Object.prototype` property names |
| Registry.ConstructorPassesGuard | app.js:32-33 | as written, the type `constructor` gets past the `!handler` guard, although it has no handler |
| Registry.ResolveHandlerAgrees | app.js:31-33 | on every type that is not an `Object.prototype` name, the handler table and the lookup as written agree: same guard outcome, same handler |
| Registry.Find | app.js:63 | `schedules[path]` finds nothing exactly when no schedule has that path; what it finds is a loaded schedule with that path |
| Arming.FirstCronTimer | app.js:153 | the chain's first timer, for the schedule's key, on a new iterator advanced past at least one tick; its positive delay ends on the selected tick, and every earlier tick is at or before `now` |
| Arming.BaseArming | app.js:135-159 | with neither `interval` nor `cron`, the error and nothing armed, whatever `immediate` is. Every trigger is for the schedule's key, and every cron timer's delay is positive |
| Arming.BaseArmingKinds | app.js:136-158 | with a rule, at most one trigger of each kind is armed, in the order interval, cron, immediate. There is an interval timer iff `interval` is set, and a cron timer iff `cron` is set and parses. There is an immediate send iff `immediate` is set and nothing was thrown. An error is thrown iff the cron parse failed |
| Arming.BaseArmingWithoutCron | app.js:140-158 | without a cron rule, the interval timer and then the immediate send (if asked for) are armed, and nothing is thrown |
| Arming.BaseArmingCronParsed | app.js:140-158 | with a cron rule that parses, the interval timer (if any), then the chain's first timer, then the immediate send (if any) are armed |
| Arming.BaseArmingCronFailure | app.js:140-152 | a cron parse failure re-throws the wrapped error after the interval timer (if any) was armed, and before the chain or the immediate send |
| Arming.BaseArmingCronTimer | app.js:153 | the chain's first timer comes from a new iterator with at least one tick pulled. Its delay is positive and ends exactly on the first tick after `now` |
| Arming.TypeText | app.js:31-32 | the text `handlers[type]` looks up: a string type is itself, and a missing type is `undefined` |
| Arming.EntryArming | app.js:28-45 | one loop pass: a disabled schedule arms nothing and throws nothing. A type with no handler throws EggScheduleError naming the type and arms nothing. Otherwise `baseHander` runs, for `worker` and `all` alike |
| Arming.Sequential | app.js:27-46 | the passes of the loop, run one after another until one throws; no passes arm nothing and throw nothing |
| Arming.Steps | app.js:27-28 | one pass per schedule of the map, in map order, each the schedule's own `EntryArming` |
| Arming.StartArming | app.js:27-46 | the loop of `startSchedule` over the map; an empty map arms nothing and throws nothing |
| Arming.ArmsOnlyEnabled | app.js:27-29 | `startSchedule` arms timers only for subscribed (non-disabled) schedules, and every cron delay it arms is positive |
| Arming.SequentialArmsFromSteps | app.js:27-46 | everything the loop arms was armed by one of its passes |
| Arming.ErrorIsFinal | app.js:33-37 | once a pass has thrown, no later pass runs |
| Arming.NoFailureIffEachSucceeds | app.js:27-46 | the passes complete together exactly when each completes |
| Arming.FirstFailureDecides | app.js:33-37 | the first pass that throws decides the error; earlier passes keep what they armed |
| Arming.EmptyStepIgnored | app.js:29 | a pass that arms nothing and throws nothing can be left out |
| Arming.StepsSplit | app.js:27-28 | each schedule's pass depends on that schedule alone, wherever it sits in the map |
| Arming.FirstFailureStops | app.js:27-37 | `startSchedule` throws the error of the first schedule that throws. What the schedules before it armed stays armed, and so does anything that schedule armed before throwing |
| Arming.NoFailureArmsAll | app.js:27-46 | `startSchedule` completes exactly when no schedule throws, and it then has armed every trigger of every schedule, in map order |
| Arming.NoFailureArmsEveryStep | app.js:27-46 | passes that all complete arm all their triggers, one pass after another in loop order |
| Arming.UnknownTypeStops | app.js:31-37 | the first enabled schedule with an unknown type raises EggScheduleError `schedule type [<type>] is not defined`, and the schedules before it stay armed |
| Arming.ReplaceEntry | app.js:27-46 | two schedules that arm alike can stand for each other anywhere in the map |
| Arming.DisabledTypeNeverRead | app.js:29-31 | the type (or anything else) of a disabled schedule is never looked at: any two disabled schedules can stand for each other |
| Arming.DisabledEntryIgnored | app.js:29 | a disabled schedule has no effect on what `startSchedule` does |
| Arming.WorkerAndAllArmAlike | app.js:38-45 | turning a `worker` schedule into an `all` schedule changes nothing `startSchedule` does: both end in the same `sendMessage(app, 'send', key)` |
| Execution.StatusText | app.js:110 | the word in the completion line: `succeed` exactly for a success, `failed` exactly for a failure |
| Execution.ClassifyAsWritten | app.js:101-107 | the listener's promise chain as written, under strict mode, keeps the key |
| Execution.PrimitiveRejectionEscapes | app.js:103-104 | as written, a task rejected with a primitive value makes the failure handler itself throw, so the failure is not contained |
| Execution.Classify | app.js:101-112 | every run is contained and reports for its key. The status is `succeed` iff the task resolved. An error is logged iff it was rejected, with `[nodinx-schedule] <key> excute error. ` before the reason's text and with the error's name kept |
| Execution.ClassifyAgreesAsWritten | app.js:101-112 | wherever the chain as written works (resolved, or rejected with an Error), Classify gives exactly its result |
| Execution.LoggedMessageKeepsReason | app.js:104 | the reason's text can be read back from the logged message |
| Lifecycle.Step | app.js:49-52 | `close` sets the flag. A repeated `egg-ready` changes nothing (the `once` listener is used up). Only `egg-ready` uses it up |
| Lifecycle.EnabledAtMostOnce | app.js:22-26 | over any sequence of events, `false` is written at most once, by the first `egg-ready` |
| Lifecycle.CloseAfterReadyIsFinal | app.js:49-52 | after the first `egg-ready`, a `close` leaves the flag set whatever events follow |
| Lifecycle.CloseBeforeReadyIsUndone | app.js:22-26 | after any events that leave the `once` listener unused (any number of `close` events included), the first `egg-ready` clears the flag |
| Agent.App.constructor | app.js:12-13 | the plugin starts with the loaded map, the flag unset, no timers and no messages, and the subscriptions of `listenScheduleMessage` |
| Agent.App.ListenScheduleMessage | app.js:83-91 | the loop subscribes exactly the keys of the schedules that are not disabled, in map order |
| Agent.App.SendMessage | app.js:118-125 | with the flag set, one skip is logged and no messenger call is made. Otherwise exactly one `send(key)` call is made. Nothing else changes |
| Agent.App.Close | app.js:49-52 | the flag is set, following Lifecycle.Step |
| Agent.App.EggReady | app.js:22-26 | the first `egg-ready` arms exactly what `startSchedule` arms and returns its error. Later ones change nothing. No message is sent or skipped, and the subscriptions stay the same |
| Agent.App.StartSchedule | app.js:24-47 | the flag is cleared. The loop appends exactly the triggers of `Arming.StartArming` and throws its error, and every armed timer is for a subscribed key |
| Agent.App.ArmSchedule | app.js:28-45 | one loop pass arms exactly what `Arming.EntryArming` says and throws its error |
| Agent.App.BaseHandler | app.js:135-159 | `baseHander` appends exactly the triggers of `Arming.BaseArming` and throws its error |
| Agent.App.FireTrigger | app.js:168-171 | an interval timer fires any number of times; an immediate send or a cron timeout fires once. Each fire makes one `sendMessage` for the trigger's key. A cron fire re-arms its chain from the cursor it left, at the tick `SelectFrom` picks for the fresh `now`, with a positive delay |
| Agent.App.Deliver | app.js:91-112 | a message for a subscribed key adds the report `Classify` gives; any other message changes nothing |
| Agent.App.RunSchedule | app.js:62-70 | a path with no schedule gives a rejection `[nodinx-schedule] Cannot find schedule <path>`; otherwise the schedule loaded under the path is run |
| Agent.ArmedKeysSubscribed | app.js:27-29 | `startSchedule` only adds timers for subscribed keys |
| Agent.FirstStepsAgree | app.js:27-46 | one more loop pass extends what the prefix armed with what that pass arms |
| Agent.LoopStep | app.js:27-46 | a loop pass either extends the prefix, or, when it throws, ends the whole loop with the loop's own result |
| Agent.FailureEndsLoop | app.js:33-37 | when a pass throws, the loop's result is that of the map up to and including that schedule |

## Left out

- Timers and the clock. `setInterval`, `setTimeout` and `setImmediate` are recorded as armed triggers, and their firing is a method call in any order the caller chooses. Timer drift and the real interleaving of fires are not modelled. `Date.now()` is a parameter. `App.EggReady` passes one reading to every cron chain it arms, where the code reads the clock once per `startCron` call; the readings differ only by the time the loop takes.
- `cron-parser`. Cron expression semantics are not modelled: a parsed expression is any strictly increasing stream of integer timestamps, and the parser is a function parameter. It may fail with any error.
- `humanize-ms`. The interval is kept as its raw configuration value; its conversion to milliseconds is not modelled. So is Node.js's cut of an interval over 2147483647 ms to 1 ms.
- Cron.StartCron: the delay it returns is the full `nextTick - now`, not the one Node.js waits. The cut to 1 ms is modelled only by `Cron.NodeTimerDelay` and `Cron.FarTickFiresEarly`.
- Agent.App.FireTrigger: a fire happens whenever the caller calls it, with any `now`. The model does not tie a fire to the moment its delay ends, so it neither promises nor rules out the early fires of a cut delay.
- Registry.ResolveHandler: the handler table is fixed to its two literal entries. The source publishes the same object as `app[SCHEDULE_HANDLER]` so that other code can add schedule types before `egg-ready`; that extension is not modelled.
- Agent.App.ArmSchedule: follows the corrected handler lookup (first finding). A type named after an `Object.prototype` property raises EggScheduleError here, where the code as written calls that property and carries on.
- Agent.App.Deliver: follows the corrected containment (second finding). A task rejected with a primitive value gets a `failed` report here, where the code as written throws from its catch handler and logs nothing.
- The messenger transport and the worker fan-out: a send is recorded as the key; which worker or workers receive it is not modelled. Both handler types make the same call.
- Promises and concurrency. A task's outcome is an input to `App.Deliver`, and overlapping runs are not modelled. A task that throws synchronously, instead of returning a rejected promise, is not modelled. Nor is a task that returns something other than a promise: `task(ctx).then` then throws a TypeError outside the chain's catch handler.
- Errors thrown by `interval.next()` of `cron-parser` (for instance when it reaches its loop limit). The tick stream never fails. In the code such an error is thrown outside the try around `parseExpression`, so it leaves `baseHander` without the `[nodinx-schedule]` tag; on a re-arm inside the timeout callback nothing catches it.
- `loadSchedule` (`./lib/load_schedule`) is not part of this model. The loaded map is an input; its paths and keys are assumed distinct (`Registry.WellFormed`).
- Path resolution in `runSchedule` (`path.isAbsolute`, `path.join`, `require.resolve`). These touch the file system; `App.RunSchedule` takes the already resolved path.
- The anonymous context and its URL (`createAnonymousContext`, `qs.stringify`). `App.RunSchedule` returns the schedule whose task would run, not the task's promise.
- Log lines other than the error messages: the info lines, including the elapsed milliseconds.
- Configuration values that are floating-point numbers, `NaN`, objects, functions or symbols. A value is `undefined`, `null`, a boolean, an integer below 10^21 in magnitude or a string.
- Values.ToText: integers of magnitude 10^21 or more are not modelled. JavaScript writes them in exponent form (`String(1e21)` is `1e+21`); the model's numbers stop below that bound, so every number it holds prints in plain decimal.
- Agent.App.StartSchedule: the exception thrown out of the `egg-ready` listener is returned as a value. What the event emitter does with it afterwards is not modelled.

## Findings

| source | as written | input that shows it | evidently intended | confidence | as-written member | corrected member |
|---|---|---|---|---|---|---|
| app.js:32-33 | `handlers[type]` reads a plain object literal, so a type named after an `Object.prototype` property finds an inherited function and passes the `!handler` guard | a schedule with `type: 'constructor'`: `Object` is called instead of a handler, nothing is armed and no EggScheduleError is raised | only `worker` and `all` are schedule types; every other type raises EggScheduleError | not executed | Registry.ConstructorPassesGuard | Registry.ResolveHandlerAgrees |
| app.js:168-171 | `setTimeout(..., nextTick - now)` passes the delay unchecked, and Node.js waits 1 ms instead of any delay over 2147483647 ms (about 24.8 days) | a cron chain whose next tick is more than 24.8 days away, e.g. a yearly `0 0 1 1 *`: the timer fires after 1 ms, sends, and re-arms on the following tick, which is again too far away, so it sends about every millisecond | the chain fires on its tick: a long delay is waited in timeouts of at most 2147483647 ms | not executed | Cron.FarTickFiresEarly | Cron.WaitPieces |
| app.js:103-104 | the `.catch` handler assigns `err.message`, and under `'use strict'` that throws a TypeError when the rejection reason is a primitive | a task whose promise rejects with a string, e.g. `Promise.reject('boom')`: the catch handler throws, no failure is logged, no completion line is logged, and the chain ends rejected | every failure is contained: logged with the key prefix and reported as `failed` | not executed | Execution.PrimitiveRejectionEscapes | Execution.Classify |

