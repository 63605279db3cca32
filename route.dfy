/**
 * The request path of `BlackListVerificationRoute`, composed from the
 * processors: validate the identification, transform the body, multicast
 * to the three backend routes and aggregate their replies with the one
 * strategy object the route owns, map the replies to DTOs, and build the
 * SOAP reply. The first exception stops the path and goes to the handler
 * of `ErrorHandlerConfig`.
 *
 * The backend replies are the parameter `replies`, in the order the
 * multicast hands them to the strategy. The multicast does not stream, so
 * that is the order of its `to` list (`Aggregation.ToListOrder`); the
 * model accepts any order, which includes that one.
 */
module Route {
  import opened Values
  import opened Errors
  import opened SoapFaultBuilder
  import opened Aggregation
  import opened ListResult
  import Services
  import Camel
  import IdentificationValidator
  import ResponseTransformer
  import FinalResponse
  import SoapResponse
  import ErrorHandlerConfig

  /** One backend reply as its sub-route leaves it: the service name the
      sub-route sets and the unmarshalled reply. */
  datatype Reply = Reply(service: string, body: Value)

  function ArrivalFor(reply: Reply): Arrival {
    Arrival(Some(reply.service), Camel.AsValueMap(Camel.Raw(reply.body)))
  }

  function Arrivals(replies: seq<Reply>): (a: seq<Arrival>)
    ensures |a| == |replies| && forall i :: 0 <= i < |replies| ==> a[i] == ArrivalFor(replies[i])
  {
    seq(|replies|, i requires 0 <= i < |replies| => ArrivalFor(replies[i]))
  }

  /** The multicast: a sub-exchange per reply, aggregated one after
      another in the order given, stopping at the first exception. The
      strategy object behaves exactly as `Run` says. */
  method Multicast(strategy: ResponseAggregationStrategy, properties: map<string, Value>, replies: seq<Reply>)
    returns (r: Result<Camel.Exchange, Exception>)
    requires |replies| > 0
    modifies strategy
    ensures var run := Run(old(strategy.processedServices), Arrivals(replies));
            && strategy.processedServices == run.processed
            && (run.outcome.Ok? ==> r.Ok? && fresh(r.value) && r.value.body == Camel.Raw(Obj(run.outcome.value)))
            && (run.outcome.Err? ==> r == Err(run.outcome.error))
  {
    ghost var arrivals := Arrivals(replies);
    ghost var start := strategy.processedServices;
    var aggregate: Camel.Exchange? := null;
    var i := 0;
    while i < |replies|
      invariant 0 <= i <= |replies|
      invariant aggregate != null ==> fresh(aggregate)
      invariant i > 0 ==> aggregate != null && aggregate.body.Raw? && aggregate.body.value.Obj?
      invariant Run(start, arrivals) == RunFrom(strategy.processedServices, PriorOf(aggregate), arrivals[i..])
    {
      var result := AggregateReply(strategy, aggregate, properties, replies[i], arrivals, i);
      if result.Err? {
        return Err(result.error);
      }
      aggregate := result.value;
      i := i + 1;
    }
    assert arrivals[i..] == [];
    return Ok(aggregate);
  }

  /** One completed sub-exchange handed to the strategy: a fresh exchange
      with the reply as body and the service name set, aggregated onto the
      exchange so far. The strategy and the returned exchange advance the
      fold `RunFrom` by the one arrival the reply is. */
  method AggregateReply(strategy: ResponseAggregationStrategy, aggregate: Camel.Exchange?,
                        properties: map<string, Value>, reply: Reply, ghost arrivals: seq<Arrival>, ghost i: nat)
    returns (r: Result<Camel.Exchange, Exception>)
    requires i < |arrivals| && arrivals[i] == ArrivalFor(reply)
    modifies strategy, aggregate
    ensures var before := RunFrom(old(strategy.processedServices), old(PriorOf(aggregate)), arrivals[i..]);
            && (r.Ok? ==> && r.value.body.Raw? && r.value.body.value.Obj?
                          && (if aggregate == null then fresh(r.value) else r.value == aggregate)
                          && before == RunFrom(strategy.processedServices, PriorOf(r.value), arrivals[i + 1..]))
            && (r.Err? ==> before == RunResult(Err(r.error), strategy.processedServices))
  {
    ghost var processed, prior := strategy.processedServices, PriorOf(aggregate);
    RunFromStep(processed, prior, arrivals, i);
    var sub := new Camel.Exchange(Camel.Raw(reply.body), properties[ServiceNameProperty := Str(reply.service)]);
    assert ArrivalOf(sub) == ArrivalFor(reply);
    r := strategy.Aggregate(aggregate, sub);
  }

  /** The outcome of one request: the result object the SOAP reply is
      marshalled from, or the exception that stopped the path; and the
      strategy's set afterwards. */
  datatype RouteOutcome = RouteOutcome(result: Result<ResultView, Exception>, processed: set<string>)

  /** The path after the request was validated and transformed: the
      multicast with its aggregation, the final check of the replies and
      the SOAP reply, as a function of the exchange properties, the
      strategy's set, the backend replies and the clock reading. */
  function BackendSpec(properties: map<string, Value>, processed: set<string>, replies: seq<Reply>,
                       endDateTime: string): RouteOutcome
  {
    var run := Run(processed, Arrivals(replies));
    match run.outcome
    case Err(e) => RouteOutcome(Err(e), run.processed)
    case Ok(aggregated) =>
      match FinalResponse.FinalOutcome(Some(aggregated))
      case Err(e) => RouteOutcome(Err(e), run.processed)
      case Ok(dtos) => RouteOutcome(SoapResponse.ResponseOutcome(Camel.Responses(dtos), properties, endDateTime), run.processed)
  }

  /** The two processors before the multicast: the identification
      check, then the transformation of the body. */
  function Prepared(body: Camel.Body): Outcome<Exception> {
    var request := Camel.AsValueMap(body);
    match IdentificationValidator.ProcessOutcome(request)
    case Fail(e) => Fail(e)
    case Pass =>
      match ResponseTransformer.TransformResponse(request)
      case Err(m) => Fail(IllegalStateException("Error en transformación de respuesta: " + m))
      case Ok(_) => Pass
  }

  /** The request path as a function of the unmarshalled request, the
      exchange properties, the strategy's set, the backend replies and the
      clock reading. */
  function RouteSpec(body: Camel.Body, properties: map<string, Value>, processed: set<string>,
                     replies: seq<Reply>, endDateTime: string): RouteOutcome
  {
    match Prepared(body)
    case Fail(e) => RouteOutcome(Err(e), processed)
    case Pass =>
      BackendSpec(properties[IdentificationValidator.ValidationPassed := Bool(true)], processed, replies, endDateTime)
  }

  /** The identification check and the transformation, on the exchange. */
  method Prepare(ex: Camel.Exchange) returns (thrown: Option<Exception>)
    modifies ex
    ensures thrown.None? <==> Prepared(old(ex.body)).Pass?
    ensures thrown.Some? ==> thrown.value == Prepared(old(ex.body)).error
    ensures thrown.None? ==> ex.properties == old(ex.properties)[IdentificationValidator.ValidationPassed := Bool(true)]
  {
    thrown := IdentificationValidator.Process(ex);
    if thrown.None? {
      thrown := ResponseTransformer.Process(ex);
    }
  }

  /** The multicast and the two processors after it. */
  method Backend(ex: Camel.Exchange, strategy: ResponseAggregationStrategy, replies: seq<Reply>,
                 endDateTime: string, marshal: ResultView -> string)
    returns (thrown: Option<Exception>)
    requires |replies| > 0
    modifies ex, strategy
    ensures var o := BackendSpec(old(ex.properties), old(strategy.processedServices), replies, endDateTime);
            && strategy.processedServices == o.processed
            && (o.result.Ok? ==> thrown.None? && ex.body == Camel.Xml(marshal(o.result.value)))
            && (o.result.Err? ==> thrown == Some(o.result.error))
    ensures ex.properties == old(ex.properties) && ex.headers == old(ex.headers)
  {
    var multicast := Multicast(strategy, ex.properties, replies);
    if multicast.Err? {
      return Some(multicast.error);
    }
    ex.body := multicast.value.body;
    thrown := FinalResponse.Process(ex);
    if thrown.None? {
      thrown := SoapResponse.Process(ex, endDateTime, marshal);
    }
  }

  /** One request through the route. `fault` is the fault thrown back to the
      caller; when it is `None` the exchange body is the reply: the SOAP
      response, or the fault an aggregation handler put there together with
      the HTTP status header. */
  method HandleRequest(ex: Camel.Exchange, strategy: ResponseAggregationStrategy, replies: seq<Reply>,
                       endDateTime: string, marshal: ResultView -> string)
    returns (fault: Option<Fault>)
    requires |replies| > 0
    modifies ex, strategy
    ensures var o := RouteSpec(old(ex.body), old(ex.properties), old(strategy.processedServices), replies, endDateTime);
            && strategy.processedServices == o.processed
            && (o.result.Ok? ==> fault.None? && ex.body == Camel.Xml(marshal(o.result.value)))
            && (o.result.Err? ==>
                  var h := ErrorHandlerConfig.Handle(o.result.error);
                  && (h.ThrowFault? ==> fault == Some(h.fault))
                  && (h.ReplyWithFault? ==>
                        && fault.None?
                        && ex.body == Camel.FaultBody(h.fault)
                        && Camel.HttpResponseCode in ex.headers
                        && ex.headers[Camel.HttpResponseCode] == Num(h.httpResponseCode)))
  {
    ghost var o := RouteSpec(ex.body, ex.properties, strategy.processedServices, replies, endDateTime);
    var thrown := Prepare(ex);
    if thrown.None? {
      thrown := Backend(ex, strategy, replies, endDateTime, marshal);
    }
    if thrown.Some? {
      fault := ErrorHandlerConfig.ApplyHandler(ex, thrown.value);
    } else {
      fault := None;
    }
  }

  // ---- what a request can end in ---------------------------------------

  /** A SOAP reply with a verdict is only ever built when the request
      passed validation, every backend reply passed the aggregation checks,
      and each of the three required services answered with code 200. */
  lemma VerdictNeedsThreeConfirmations(body: Camel.Body, properties: map<string, Value>, processed: set<string>,
                                       replies: seq<Reply>, endDateTime: string)
    requires RouteSpec(body, properties, processed, replies, endDateTime).result.Ok?
    ensures IdentificationValidator.ProcessOutcome(Camel.AsValueMap(body)).Pass?
    ensures forall i :: 0 <= i < |replies| ==> Acceptable(ArrivalFor(replies[i]).response)
    ensures var run := Run(processed, Arrivals(replies));
            run.outcome.Ok? && FinalResponse.AllConfirmed(run.outcome.value)
  {
    RunFromOkCovers(processed, First, Arrivals(replies));
  }

  /** An invalid request is refused before any backend is called, so it
      leaves the strategy's set untouched. */
  lemma InvalidRequestLeavesStrategyAlone(body: Camel.Body, properties: map<string, Value>, processed: set<string>,
                                          replies: seq<Reply>, endDateTime: string)
    requires IdentificationValidator.ProcessOutcome(Camel.AsValueMap(body)).Fail?
    ensures RouteSpec(body, properties, processed, replies, endDateTime)
         == RouteOutcome(Err(IdentificationValidator.ProcessOutcome(Camel.AsValueMap(body)).error), processed)
    ensures ErrorHandlerConfig.Handle(RouteSpec(body, properties, processed, replies, endDateTime).result.error)
              .TheFault().statusCode == 400
  {
  }

  /** Once the strategy's set holds the three required names, a valid
      request whose first two replies are acceptable and come from two
      different required services is answered with the 400 aggregation
      fault naming the third service, and the set stays full. */
  lemma FullSetAnswersEveryRequestWithFault(body: Camel.Body, properties: map<string, Value>,
                                            replies: seq<Reply>, endDateTime: string)
    requires IdentificationValidator.ProcessOutcome(Camel.AsValueMap(body)).Pass?
    requires |replies| >= 2
    requires Acceptable(ArrivalFor(replies[0]).response) && Acceptable(ArrivalFor(replies[1]).response)
    requires replies[0].service in Services.RequiredSet && replies[1].service in Services.RequiredSet
    requires replies[0].service != replies[1].service
    ensures var o := RouteSpec(body, properties, Services.RequiredSet, replies, endDateTime);
            var missing := Services.FirstMissing(Services.RequiredServices, {replies[0].service, replies[1].service});
            && o.processed == Services.RequiredSet
            && missing.Some?
            && o.result == Err(AggregationValidationException(Services.MissingServiceMessage(missing.value)))
            && ErrorHandlerConfig.Handle(o.result.error)
                 == ErrorHandlerConfig.ReplyWithFault(400, Fault(Services.MissingServiceMessage(missing.value), 400, ClientFaultCode))
  {
    ResponseTransformer.ValidatedRequestTransforms(Camel.AsValueMap(body));
    FullSetFailsEveryRun(Arrivals(replies));
  }
}
