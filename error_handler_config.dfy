/**
 * `ErrorHandlerConfig`: the route's exception handlers as one total match
 * from the kind of the thrown exception to the fault the caller receives,
 * plus the default handler's redelivery bound.
 */
module ErrorHandlerConfig {
  import opened Values
  import opened Errors
  import opened SoapFaultBuilder
  import Camel

  const TempuriNs: string := "http://tempuri.org/"
  const IntegrationNs: string := "http://banreservas.com/integration/faults"

  /** The arguments a handler passes to `createValidationFault`. */
  datatype FaultSpec = FaultSpec(errorCode: string, namespace: string, statusCode: int, message: string)

  /** What a handler does with the fault: the two aggregation handlers set
      the HTTP response code header and put the fault in the body; the
      others throw it. */
  datatype Handling =
    | ReplyWithFault(httpResponseCode: int, fault: Fault)
    | ThrowFault(fault: Fault)
  {
    function TheFault(): Fault {
      match this
      case ReplyWithFault(_, f) => f
      case ThrowFault(f) => f
    }
  }

  /** The handler table, most specific class first: a `NumberFormatException`
      is caught by the `IllegalArgumentException` clause, and everything the
      four named clauses do not catch falls to the `Exception` clause. */
  function FaultSpecFor(e: Exception): (spec: FaultSpec)
    ensures e.AggregationValidationException? ==> spec.statusCode == 400 && spec.message == e.message
    ensures e.AggregationException? ==> spec.statusCode == 500 && spec.message == e.message
    ensures e.IsIllegalArgument() ==> spec.statusCode == 400 && spec.message == e.message
    ensures e.ConnectException? ==> spec.statusCode == 503
    ensures spec.statusCode in {400, 500, 503}
  {
    match e
    case AggregationValidationException(m) =>
      FaultSpec("AGGREGATION_VALIDATION_ERROR", IntegrationNs, 400, m)
    case AggregationException(m, _) =>
      FaultSpec("AGGREGATION_ERROR", IntegrationNs, 500, m)
    case IllegalArgumentException(m) =>
      FaultSpec("VAL-400", TempuriNs, 400, m)
    case NumberFormatException(m) =>
      FaultSpec("VAL-400", TempuriNs, 400, m)
    case ConnectException(m) =>
      FaultSpec("SERVICE_UNAVAILABLE", IntegrationNs, 503, "Servicio no disponible: " + m)
    case _ =>
      FaultSpec("INTERNAL_ERROR", IntegrationNs, 500, "Error interno del servidor: " + Text(e.Message()))
  }

  /** The handler run for an exception. */
  function Handle(e: Exception): (h: Handling)
    ensures h.TheFault() == CreateValidationFault(FaultSpecFor(e).message, FaultSpecFor(e).errorCode,
                                                  FaultSpecFor(e).namespace, FaultSpecFor(e).statusCode)
    ensures h.ReplyWithFault? <==> e.AggregationValidationException? || e.AggregationException?
    ensures h.ReplyWithFault? ==> h.httpResponseCode == h.TheFault().statusCode
  {
    var spec := FaultSpecFor(e);
    var fault := CreateValidationFault(spec.message, spec.errorCode, spec.namespace, spec.statusCode);
    if e.AggregationValidationException? || e.AggregationException? then
      ReplyWithFault(spec.statusCode, fault)
    else
      ThrowFault(fault)
  }

  /** Every exception reaches the caller as exactly one `soap:Client` fault
      with status 400, 500 or 503; the message the caller sees is the
      exception's own, or carries the prefix of its handler. */
  lemma EveryExceptionBecomesOneFault(e: Exception)
    ensures Handle(e).TheFault().faultCode == ClientFaultCode
    ensures Handle(e).TheFault().statusCode in {400, 500, 503}
    ensures e.AggregationValidationException? || e.AggregationException? || e.IsIllegalArgument()
            ==> Handle(e).TheFault().message == e.message
    ensures e.ConnectException? ==> Handle(e).TheFault().message == "Servicio no disponible: " + e.message
    ensures !(e.AggregationValidationException? || e.AggregationException? || e.IsIllegalArgument()
              || e.ConnectException?)
            ==> Handle(e).TheFault() == Fault("Error interno del servidor: " + Text(e.Message()), 500, ClientFaultCode)
  {
  }

  /** A fault thrown by a processor (e.g. the 400 faults of
      `FinalResponseProcessor`) is not one of the four named classes, so
      the catch-all clause turns it into a 500 fault whose message is the
      original one behind the internal-error prefix. */
  lemma ThrownFaultBecomesInternalError(f: Fault)
    ensures Handle(SoapFault(f)) == ThrowFault(Fault("Error interno del servidor: " + f.message, 500, ClientFaultCode))
  {
  }

  /** Running a handler on the exchange: the two aggregation handlers set
      the `CamelHttpResponseCode` header and the body and swallow the
      exception; the others leave the exchange alone and throw the fault. */
  method ApplyHandler(ex: Camel.Exchange, e: Exception) returns (thrown: Option<Fault>)
    modifies ex
    ensures Handle(e).ReplyWithFault? ==>
      && thrown == None
      && ex.headers == old(ex.headers)[Camel.HttpResponseCode := Num(Handle(e).httpResponseCode)]
      && ex.body == Camel.FaultBody(Handle(e).TheFault())
    ensures Handle(e).ThrowFault? ==>
      && thrown == Some(Handle(e).TheFault())
      && ex.headers == old(ex.headers) && ex.body == old(ex.body)
    ensures ex.properties == old(ex.properties)
  {
    var h := Handle(e);
    match h
    case ReplyWithFault(code, fault) =>
      ex.headers := ex.headers[Camel.HttpResponseCode := Num(code)];
      ex.body := Camel.FaultBody(fault);
      thrown := None;
    case ThrowFault(fault) =>
      thrown := Some(fault);
  }

  // ---- redelivery ------------------------------------------------------

  /** `maximumRedeliveries(2)` on the default error handler. */
  const MaximumRedeliveries: nat := 2

  /** How many times a failing step is attempted, given whether each
      attempt fails: attempts stop at the first success or once the
      redeliveries are used up. */
  function AttemptsMade(attemptFails: seq<bool>, redeliveriesLeft: nat): (n: nat)
    requires |attemptFails| > redeliveriesLeft
    ensures 1 <= n <= redeliveriesLeft + 1
    ensures forall i :: 0 <= i < n - 1 ==> attemptFails[i]
    ensures n <= redeliveriesLeft ==> !attemptFails[n - 1]
    decreases redeliveriesLeft
  {
    if !attemptFails[0] || redeliveriesLeft == 0 then 1
    else 1 + AttemptsMade(attemptFails[1..], redeliveriesLeft - 1)
  }

  /** With the configured bound a step runs at most three times, and it is
      retried only after an attempt that failed. */
  lemma AtMostThreeAttempts(attemptFails: seq<bool>)
    requires |attemptFails| > MaximumRedeliveries
    ensures 1 <= AttemptsMade(attemptFails, MaximumRedeliveries) <= 3
    ensures forall i :: 0 <= i < AttemptsMade(attemptFails, MaximumRedeliveries) - 1 ==> attemptFails[i]
  {
  }
}
