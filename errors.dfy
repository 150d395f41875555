/** The errors the scheduler raises or logs, with their exact messages. */
module Errors {
  import opened Values

  /** A JavaScript Error object: its `name` and its `message`. */
  datatype Error = Error(name: string, message: string)

  /** The tag the plugin puts in front of its own messages. */
  const Tag: string := "[nodinx-schedule] "

  /** `[nodinx-schedule] ${msg}`; the tag can always be taken off again. */
  function Tagged(msg: string): (r: string)
    ensures |r| == |Tag| + |msg|
    ensures r[..|Tag|] == Tag && r[|Tag|..] == msg
  {
    Tag + msg
  }

  /** baseHander: neither `interval` nor `cron` is set. */
  function MissingRuleError(): (e: Error)
    ensures e.name == "Error"
    ensures |Tag| <= |e.message| && e.message[..|Tag|] == Tag && e.message[|Tag|..] == "schedule.interval or schedule.cron must be present"
  {
    Error("Error", Tagged("schedule.interval or schedule.cron must be present"))
  }

  /** baseHander: the cron parser threw `cause`; the same error is re-thrown with a longer message. */
  function CronParseError(cron: JsValue, cause: Error): (e: Error)
    ensures e.name == cause.name
  {
    Error(cause.name, Tagged("parse cron instruction(" + ToText(cron) + ") error: " + cause.message))
  }

  /** startSchedule: no handler is registered for the type. */
  function UnknownTypeError(typeText: string): (e: Error)
    ensures e.name == "EggScheduleError"
    ensures |e.message| == |typeText| + 31
    ensures e.message[15..15 + |typeText|] == typeText
  {
    Error("EggScheduleError", "schedule type [" + typeText + "] is not defined")
  }

  /** runSchedule: no schedule is loaded under the resolved path. */
  function NotFoundError(path: string): (e: Error)
    ensures e.name == "Error"
    ensures e.message == "[nodinx-schedule] Cannot find schedule " + path
  {
    Error("Error", Tagged("Cannot find schedule " + path))
  }

  /** The prefix a failed task's message gets in the message listener. */
  function TaskFailurePrefix(key: string): string
  {
    Tagged(key + " excute error. ")
  }

  /** The failed task's error, as it is logged. */
  function TaskFailure(key: string, cause: Error): (e: Error)
    ensures e.name == cause.name
  {
    Error(cause.name, TaskFailurePrefix(key) + cause.message)
  }

  /** The cause's message can be read back from the wrapped cron parse error. */
  lemma CronParseErrorKeepsCause(cron: JsValue, cause: Error)
    ensures var e := CronParseError(cron, cause);
            var head := Tag + "parse cron instruction(" + ToText(cron) + ") error: ";
            |head| <= |e.message| && e.message[..|head|] == head && e.message[|head|..] == cause.message
  {
    var head := Tag + "parse cron instruction(" + ToText(cron) + ") error: ";
    assert CronParseError(cron, cause).message == head + cause.message;
  }

  /** The task's own message can be read back from the logged failure. */
  lemma TaskFailureKeepsCause(key: string, cause: Error)
    ensures var e := TaskFailure(key, cause);
            var head := TaskFailurePrefix(key);
            |head| <= |e.message| && e.message[..|head|] == head && e.message[|head|..] == cause.message
  {
  }
}
