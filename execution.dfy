/** What the message listener makes of one run of a task: the outcome it logs
    and the error it writes to the error log. */
module Execution {
  import opened Values
  import opened Errors

  /** What a task's promise was rejected with: an object with a name and a
      message (an Error), or a primitive value. */
  datatype Reason = Thrown(error: Error) | Primitive(value: JsValue)

  /** How a task's promise settles. */
  datatype TaskOutcome = Resolved | Rejected(reason: Reason)

  datatype Status = Succeed | Failed

  /** The word in the completion log line. */
  function StatusText(s: Status): (r: string)
    ensures r == "succeed" <==> s == Succeed
    ensures r == "failed" <==> s == Failed
  {
    match s
    case Succeed => "succeed"
    case Failed => "failed"
  }

  /** One delivered message for `key`:
      - Completed: the completion line is logged with `status`, after `logged`
        (if any) was written to the error log; nothing is re-thrown;
      - Escaped: the failure handler itself threw, so no completion line is
        logged and the promise chain ends rejected. */
  datatype Report = Completed(key: string, status: Status, logged: Option<Error>) | Escaped(key: string)

  /** The text a rejection reason reads as in a message. */
  function ReasonText(r: Reason): string
  {
    match r
    case Thrown(e) => e.message
    case Primitive(v) => ToText(v)
  }

  /** The handler chain as written: `.then(() => true)`, then a `.catch` that
      assigns to `err.message`. The module is in strict mode, where assigning a
      property of a primitive throws a TypeError, so a primitive reason makes
      the catch handler itself throw. */
  function ClassifyAsWritten(key: string, outcome: TaskOutcome): (r: Report)
    ensures r.key == key
  {
    match outcome
    case Resolved => Completed(key, Succeed, None)
    case Rejected(Thrown(e)) => Completed(key, Failed, Some(TaskFailure(key, e)))
    case Rejected(Primitive(_)) => Escaped(key)
  }

  /** A task rejected with a primitive value escapes the containment as written. */
  lemma PrimitiveRejectionEscapes(key: string, v: JsValue)
    ensures ClassifyAsWritten(key, Rejected(Primitive(v))).Escaped?
  {
  }

  /** The handler chain with every failure contained: a primitive reason is
      logged as an Error whose message is the reason's text. */
  function Classify(key: string, outcome: TaskOutcome): (r: Report)
    // every run is contained and ends in a completion line for its key
    ensures r.Completed? && r.key == key
    // succeed exactly when the task resolved
    ensures r.status == Succeed <==> outcome.Resolved?
    // an error is logged exactly when it failed, with the key in front of its message
    ensures r.logged.Some? <==> outcome.Rejected?
    ensures outcome.Rejected? ==>
              r.logged.value.message == TaskFailurePrefix(key) + ReasonText(outcome.reason)
    ensures outcome.Rejected? && outcome.reason.Thrown? ==> r.logged.value.name == outcome.reason.error.name
  {
    match outcome
    case Resolved => Completed(key, Succeed, None)
    case Rejected(Thrown(e)) => Completed(key, Failed, Some(TaskFailure(key, e)))
    case Rejected(Primitive(v)) => Completed(key, Failed, Some(TaskFailure(key, Error("Error", ToText(v)))))
  }

  /** Where the source's handler works, Classify does exactly what it does. */
  lemma ClassifyAgreesAsWritten(key: string, outcome: TaskOutcome)
    requires !(outcome.Rejected? && outcome.reason.Primitive?)
    ensures Classify(key, outcome) == ClassifyAsWritten(key, outcome)
  {
  }

  /** The task's own message is recoverable from the logged error. */
  lemma LoggedMessageKeepsReason(key: string, outcome: TaskOutcome)
    requires outcome.Rejected?
    ensures var m := Classify(key, outcome).logged.value.message;
            var head := TaskFailurePrefix(key);
            |head| <= |m| && m[..|head|] == head && m[|head|..] == ReasonText(outcome.reason)
  {
  }
}
