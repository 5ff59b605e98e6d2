/**
 * What a tick does with a finished report: serialise it, send it to the
 * remote collector when one is configured, and classify the reply.
 *
 * Serialisation (a JSON encoder) and the HTTP exchange are outside the
 * model; their outcomes are inputs: `marshalOk` says whether encoding
 * succeeded and `SendAttempt` is what the HTTP layer gave back.
 */
module Delivery {

  /** What building and issuing the POST request gave back. */
  datatype SendAttempt =
    | RequestNotBuilt             // the request could not be constructed
    | TransportFailed             // the client returned an error (timeout, refused, cancelled)
    | Responded(statusCode: int)  // the collector answered with this status

  /** How the reporter classifies a send, with the log level it uses for it. */
  datatype SendOutcome =
    | RequestError                // logged as an error
    | TransportError              // logged as an error
    | Accepted(statusCode: int)   // logged at debug level
    | Rejected(statusCode: int)   // logged as a warning

  datatype LogLevel = Debug | Warning | Error

  /** What one tick does after the report has been assembled. */
  datatype TickOutcome =
    | MarshalFailed                        // error line logged; no send, no report lines
    | LocalOnly                            // no collector configured; report lines logged
    | SendAttempted(outcome: SendOutcome)  // one send attempted; report lines logged whatever it gave

  /** A reply counts as delivered exactly when its status is 2xx. */
  predicate IsSuccessStatus(statusCode: int) {
    200 <= statusCode < 300
  }

  /** The classification at the end of sending a report to the collector. */
  function ClassifySend(attempt: SendAttempt): (o: SendOutcome)
    ensures o.Accepted? <==> attempt.Responded? && 200 <= attempt.statusCode < 300
    ensures o.Rejected? <==> attempt.Responded? && !(200 <= attempt.statusCode < 300)
    ensures (o.Accepted? || o.Rejected?) ==> attempt.Responded? && o.statusCode == attempt.statusCode
    ensures o.RequestError? <==> attempt.RequestNotBuilt?
    ensures o.TransportError? <==> attempt.TransportFailed?
  {
    match attempt
    case RequestNotBuilt => RequestError
    case TransportFailed => TransportError
    case Responded(code) =>
      if IsSuccessStatus(code) then Accepted(code) else Rejected(code)
  }

  /** The log level each outcome is reported at. */
  function Severity(o: SendOutcome): (level: LogLevel)
    ensures level == Debug <==> o.Accepted?
    ensures level == Warning <==> o.Rejected?
    ensures level == Error <==> (o.RequestError? || o.TransportError?)
  {
    match o
    case Accepted(_) => Debug
    case Rejected(_) => Warning
    case _ => Error
  }

  /**
   * The tail of a tick: stop if serialisation failed, otherwise send when a
   * collector URL is configured, then log the report.
   */
  function Dispatch(marshalOk: bool, reportURL: string, attempt: SendAttempt): (t: TickOutcome)
    ensures t.MarshalFailed? <==> !marshalOk
    ensures t.SendAttempted? <==> marshalOk && reportURL != ""
    ensures t.LocalOnly? <==> marshalOk && reportURL == ""
    ensures t.SendAttempted? ==> t.outcome == ClassifySend(attempt)
  {
    if !marshalOk then MarshalFailed
    else if reportURL != "" then SendAttempted(ClassifySend(attempt))
    else LocalOnly
  }

  /** Whether the tick writes the report's lines to the log. */
  predicate LogsReport(t: TickOutcome) {
    !t.MarshalFailed?
  }

  /**
   * A failed delivery never stops the report from being logged: whenever
   * serialisation succeeds the lines are written, whatever the collector did,
   * and a rejected reply is logged as a warning.
   */
  lemma DeliveryFailureStillLogs(reportURL: string, attempt: SendAttempt)
    ensures LogsReport(Dispatch(true, reportURL, attempt))
    ensures reportURL != "" && attempt.Responded? && !IsSuccessStatus(attempt.statusCode) ==>
              Dispatch(true, reportURL, attempt) == SendAttempted(Rejected(attempt.statusCode))
              && Severity(Rejected(attempt.statusCode)) == Warning
  {
  }
}
