/**
 * `ResponseAggregationStrategy`: folds the replies of the three backend
 * calls into one map from service name to reply. Each reply is checked as
 * it arrives. The strategy also keeps a set of the services it has seen,
 * `processedServices`, which is a field of the strategy object: one object
 * serves every request of the route, so the set lives across requests and
 * is emptied only after an aggregation that reaches three names and finds
 * all three required replies.
 *
 * `Step` is one call of `aggregate` as a function of the set, what the old
 * exchange holds and the arriving reply; `RunFrom` folds it over the
 * replies of one multicast, which stops at the first exception. The class
 * `ResponseAggregationStrategy` is the object itself, with its `aggregate`
 * proved to do what `Step` says.
 */
module Aggregation {
  import opened Values
  import opened Errors
  import opened Validation
  import opened Services
  import Camel

  const ServiceNameProperty: string := "ServiceName"

  // ---- validateResponse ------------------------------------------------

  /** `isValidResponseCode`: the five codes a backend reply may carry. */
  predicate IsValidResponseCode(code: int) {
    code == 200 || code == 400 || code == 404 || code == 500 || code == 503
  }

  /** `Integer.parseInt(responseCode.toString())`: a number prints in
      decimal, a boolean as `true`/`false`, a map as `{...}`, and any other
      object as its text. */
  function ParseCode(v: Value): (r: Option<int>)
    ensures r.Some? ==> InIntRange(r.value)
  {
    match v
    case Null => None
    case Bool(b) => ParseInt(if b then "true" else "false")
    case Num(n) => ParseInt(DecimalString(n))
    case Str(s) => ParseInt(s)
    case Obj(_) => None
    case Other(text) => ParseInt(text)
  }

  /** A number in the 32-bit range parses back to itself; a wider one fails. */
  lemma ParseNumericCode(n: int)
    ensures ParseCode(Num(n)) == if InIntRange(n) then Some(n) else None
  {
    ParseDecimalString(n);
  }

  /** The reference statement of an acceptable reply: a map whose `header`
      is a map holding a `responseCode` that reads as one of the five
      codes. */
  predicate Acceptable(response: Option<map<string, Value>>) {
    && response.Some?
    && Get(response.value, "header").Obj?
    && var code := Get(Get(response.value, "header").fields, "responseCode");
    && !code.Null?
    && ParseCode(code).Some?
    && IsValidResponseCode(ParseCode(code).value)
  }

  /** `validateResponse`. `Err` is an exception escaping it: the cast of a
      `header` that is not a map, or the parse of a code that is not a
      number. */
  function ValidateResponse(response: Option<map<string, Value>>, serviceName: Option<string>)
    : (r: Result<ValidationResult, Cause>)
    ensures r.Ok? && r.value.isValid <==> Acceptable(response)
    ensures r.Ok? ==> !r.value.HasCoincidence()
    ensures r.Ok? && r.value.isValid ==> r.value.message == "OK"
    ensures r.Ok? && !r.value.isValid ==>
              var prefix := Text(serviceName) + ": ";
              |prefix| <= |r.value.message| && r.value.message[..|prefix|] == prefix
    ensures r.Err? <==> && response.Some?
                        && !Get(response.value, "header").Null?
                        && (|| !Get(response.value, "header").Obj?
                            || (&& !Get(Get(response.value, "header").fields, "responseCode").Null?
                                && ParseCode(Get(Get(response.value, "header").fields, "responseCode")).None?))
  {
    var prefix := Text(serviceName) + ": ";
    match response
    case None => Ok(ForResponse(false, prefix + "Respuesta nula"))
    case Some(reply) =>
      match Get(reply, "header")
      case Null => Ok(ForResponse(false, prefix + "Header no encontrado"))
      case Obj(header) =>
        var code := Get(header, "responseCode");
        if code.Null? then Ok(ForResponse(false, prefix + "Código de respuesta no encontrado"))
        else
          (match ParseCode(code)
           case None => Err(NumberFormat)
           case Some(c) =>
             if IsValidResponseCode(c) then Ok(ForResponse(true, "OK"))
             else Ok(ForResponse(false, prefix + "Código de respuesta inválido: " + DecimalString(c))))
      case _ => Err(ClassCast)
  }

  // ---- one call of aggregate -------------------------------------------

  /** What `aggregate` finds in the old exchange: nothing on the first call,
      later the body, read as a map (`None` when it is not one). */
  datatype Prior = First | Later(body: Option<map<string, Value>>)

  /** The reply arriving with the new exchange: its `ServiceName` property
      and its body read as a map. */
  datatype Arrival = Arrival(serviceName: Option<string>, response: Option<map<string, Value>>)

  /** One call's effect: the aggregated map the returned exchange carries,
      or the exception thrown; the set afterwards; and the map written into
      an exchange body, if the call got that far. */
  datatype StepResult = StepResult(
    outcome: Result<map<string, Value>, Exception>,
    processed: set<string>,
    written: Option<map<string, Value>>)

  /** The aggregate the old exchange holds; an absent or non-map body
      starts a new one. */
  function Accumulated(prior: Prior): map<string, Value> {
    match prior
    case First => map[]
    case Later(body) => body.GetOr(map[])
  }

  function InitialRejection(serviceName: Option<string>, message: string): Exception {
    AggregationValidationException("Error en validación de respuesta inicial - " + Text(serviceName) + ": " + message)
  }

  function Rejection(serviceName: Option<string>, message: string): Exception {
    AggregationValidationException("Error en validación de respuesta - " + Text(serviceName) + ": " + message)
  }

  function Unexpected(cause: Cause): Exception {
    AggregationException(UnexpectedAggregationMessage, cause)
  }

  /** One call of `aggregate`. A reply without a service name passes
      validation but then fails on the null key of the concurrent map. On
      the first call the size of the set is not checked. */
  function Step(processed: set<string>, prior: Prior, a: Arrival): (r: StepResult)
    ensures !Acceptable(a.response) ==> r.outcome.Err? && r.processed == processed && r.written.None?
    ensures r.outcome.Ok? ==> && a.serviceName.Some? && a.response.Some?
                              && r.outcome.value == Accumulated(prior)[a.serviceName.value := Obj(a.response.value)]
                              && r.written == Some(r.outcome.value)
    ensures r.processed != processed ==> a.serviceName.Some? && Acceptable(a.response)
    ensures r.processed == {} && processed != {} ==> r.outcome.Ok? && RequiredSet <= r.outcome.value.Keys
    ensures r.outcome.Err? && r.outcome.error.AggregationException? ==> r.processed == processed
    ensures var v := ValidateResponse(a.response, a.serviceName);
            && (v.Err? ==> r.outcome == Err(AggregationException(UnexpectedAggregationMessage, v.error)))
            && (v.Ok? && !v.value.isValid ==>
                  r.outcome == Err(if prior.First? then InitialRejection(a.serviceName, v.value.message)
                                   else Rejection(a.serviceName, v.value.message)))
  {
    match ValidateResponse(a.response, a.serviceName)
    case Err(cause) => StepResult(Err(Unexpected(cause)), processed, None)
    case Ok(validation) =>
      if !validation.isValid then
        var e := if prior.First? then InitialRejection(a.serviceName, validation.message)
                 else Rejection(a.serviceName, validation.message);
        StepResult(Err(e), processed, None)
      else if a.serviceName.None? then
        StepResult(Err(Unexpected(NullPointer)), processed, None)
      else
        var name := a.serviceName.value;
        var aggregated := Accumulated(prior)[name := Obj(a.response.value)];
        var seen := processed + {name};
        if prior.Later? && |seen| == 3 then
          match FirstMissing(RequiredServices, aggregated.Keys)
          case Some(service) =>
            StepResult(Err(AggregationValidationException(MissingServiceMessage(service))), seen, Some(aggregated))
          case None =>
            FirstMissingRequired(aggregated.Keys);
            StepResult(Ok(aggregated), {}, Some(aggregated))
        else
          StepResult(Ok(aggregated), seen, Some(aggregated))
  }

  // ---- one multicast ---------------------------------------------------

  datatype RunResult = RunResult(outcome: Result<map<string, Value>, Exception>, processed: set<string>)

  /** The replies of one multicast folded through `Step`, stopping at the
      first exception. */
  function RunFrom(processed: set<string>, prior: Prior, arrivals: seq<Arrival>): RunResult
    decreases |arrivals|
  {
    if arrivals == [] then RunResult(Ok(Accumulated(prior)), processed)
    else
      var st := Step(processed, prior, arrivals[0]);
      match st.outcome
      case Err(e) => RunResult(Err(e), st.processed)
      case Ok(aggregated) => RunFrom(st.processed, Later(Some(aggregated)), arrivals[1..])
  }

  /** A fold that succeeds accepted every reply, stored each under its
      service name, and kept what the prior aggregate held. */
  lemma {:induction false} RunFromOkCovers(processed: set<string>, prior: Prior, arrivals: seq<Arrival>)
    ensures var r := RunFrom(processed, prior, arrivals);
            && (r.outcome.Ok? ==> forall i :: 0 <= i < |arrivals| ==>
                  Acceptable(arrivals[i].response) && arrivals[i].serviceName.Some?
                  && arrivals[i].serviceName.value in r.outcome.value)
            && (r.outcome.Ok? ==> Accumulated(prior).Keys <= r.outcome.value.Keys)
    decreases |arrivals|
  {
    if arrivals != [] {
      var st := Step(processed, prior, arrivals[0]);
      if st.outcome.Ok? {
        RunFromOkCovers(st.processed, Later(Some(st.outcome.value)), arrivals[1..]);
        assert forall i :: 1 <= i < |arrivals| ==> arrivals[i] == arrivals[1..][i - 1];
      }
    }
  }

  /** One step of the fold, from position `i` of the replies. */
  lemma RunFromStep(processed: set<string>, prior: Prior, arrivals: seq<Arrival>, i: nat)
    requires i < |arrivals|
    ensures var st := Step(processed, prior, arrivals[i]);
            RunFrom(processed, prior, arrivals[i..])
              == if st.outcome.Err? then RunResult(Err(st.outcome.error), st.processed)
                 else RunFrom(st.processed, Later(Some(st.outcome.value)), arrivals[i + 1..])
  {
    assert arrivals[i..][0] == arrivals[i];
    assert arrivals[i..][1..] == arrivals[i + 1..];
  }

  /** One multicast against the strategy's current set. */
  function Run(processed: set<string>, arrivals: seq<Arrival>): RunResult {
    RunFrom(processed, First, arrivals)
  }

  /** Every entry of the map is a stored reply that passed validation. */
  predicate AllAcceptable(m: map<string, Value>) {
    forall k :: k in m ==> m[k].Obj? && Acceptable(Some(m[k].fields))
  }

  predicate PriorAcceptable(prior: Prior) {
    prior.Later? && prior.body.Some? ==> AllAcceptable(prior.body.value)
  }

  /** Only validated replies are ever stored in the aggregate. */
  lemma {:induction false} RunStoresOnlyAcceptable(processed: set<string>, prior: Prior, arrivals: seq<Arrival>)
    requires PriorAcceptable(prior)
    ensures RunFrom(processed, prior, arrivals).outcome.Ok? ==>
              AllAcceptable(RunFrom(processed, prior, arrivals).outcome.value)
    decreases |arrivals|
  {
    if arrivals != [] {
      var st := Step(processed, prior, arrivals[0]);
      if st.outcome.Ok? {
        RunStoresOnlyAcceptable(st.processed, Later(Some(st.outcome.value)), arrivals[1..]);
      }
    }
  }

  /** An accepted reply whose call does not check the set: it is added to
      the aggregate and its name to the set. */
  lemma StepStores(processed: set<string>, prior: Prior, a: Arrival)
    requires Acceptable(a.response) && a.serviceName.Some?
    requires prior.First? || |processed + {a.serviceName.value}| != 3
    ensures var aggregated := Accumulated(prior)[a.serviceName.value := Obj(a.response.value)];
            Step(processed, prior, a) == StepResult(Ok(aggregated), processed + {a.serviceName.value}, Some(aggregated))
  {
  }

  /** An accepted reply that brings a later call's set to three names: the
      aggregate is checked for the required services. */
  lemma StepChecks(processed: set<string>, prior: Prior, a: Arrival)
    requires Acceptable(a.response) && a.serviceName.Some?
    requires prior.Later? && |processed + {a.serviceName.value}| == 3
    ensures var aggregated := Accumulated(prior)[a.serviceName.value := Obj(a.response.value)];
            var missing := FirstMissing(RequiredServices, aggregated.Keys);
            Step(processed, prior, a)
              == if missing.Some?
                 then StepResult(Err(AggregationValidationException(MissingServiceMessage(missing.value))),
                                 processed + {a.serviceName.value}, Some(aggregated))
                 else StepResult(Ok(aggregated), {}, Some(aggregated))
  {
  }

  /** Three acceptable replies, one from each required service, aggregate
      in any arrival order into the map of the three replies, and the set
      is emptied again, provided the set starts empty. */
  lemma CompleteRunSucceeds(arrivals: seq<Arrival>)
    requires |arrivals| == 3
    requires forall i :: 0 <= i < 3 ==> Acceptable(arrivals[i].response) && arrivals[i].serviceName.Some?
    requires forall i, j :: 0 <= i < j < 3 ==> arrivals[i].serviceName != arrivals[j].serviceName
    requires forall i :: 0 <= i < 3 ==> arrivals[i].serviceName.value in RequiredSet
    ensures var r := Run({}, arrivals);
            && r.processed == {}
            && r.outcome.Ok?
            && r.outcome.value.Keys == RequiredSet
            && forall i :: 0 <= i < 3 ==>
                 arrivals[i].response.Some?
                 && r.outcome.value[arrivals[i].serviceName.value] == Obj(arrivals[i].response.value)
  {
    var a0, a1, a2 := arrivals[0], arrivals[1], arrivals[2];
    var n0, n1, n2 := a0.serviceName.value, a1.serviceName.value, a2.serviceName.value;
    assert n0 != n1 && n0 != n2 && n1 != n2;
    CompleteRunOf(a0, a1, a2);
    assert arrivals == [a0, a1, a2];
    ThreeDistinctRequired(n0, n1, n2);
  }

  /** `CompleteRunSucceeds` for the three replies named one by one. */
  lemma CompleteRunOf(a0: Arrival, a1: Arrival, a2: Arrival)
    requires Acceptable(a0.response) && Acceptable(a1.response) && Acceptable(a2.response)
    requires a0.serviceName.Some? && a1.serviceName.Some? && a2.serviceName.Some?
    requires a0.serviceName != a1.serviceName && a0.serviceName != a2.serviceName && a1.serviceName != a2.serviceName
    requires a0.serviceName.value in RequiredSet && a1.serviceName.value in RequiredSet
    requires a2.serviceName.value in RequiredSet
    ensures Run({}, [a0, a1, a2])
            == RunResult(Ok(map[a0.serviceName.value := Obj(a0.response.value)]
                               [a1.serviceName.value := Obj(a1.response.value)]
                               [a2.serviceName.value := Obj(a2.response.value)]), {})
  {
    FirstTwoStored(a0, a1, a2);
    LastCompletes(a0, a1, a2);
  }

  /** The first two replies of a run from the empty set, acceptable and
      from two different services, are stored without a check. */
  lemma FirstTwoStored(a0: Arrival, a1: Arrival, a2: Arrival)
    requires Acceptable(a0.response) && Acceptable(a1.response)
    requires a0.serviceName.Some? && a1.serviceName.Some? && a0.serviceName != a1.serviceName
    ensures var n0, n1 := a0.serviceName.value, a1.serviceName.value;
            Run({}, [a0, a1, a2])
              == RunFrom({n0, n1}, Later(Some(map[n0 := Obj(a0.response.value)][n1 := Obj(a1.response.value)])), [a2])
  {
    var arrivals := [a0, a1, a2];
    var n0, n1 := a0.serviceName.value, a1.serviceName.value;
    var m1 := map[n0 := Obj(a0.response.value)];
    StepStores({}, First, a0);
    RunFromStep({}, First, arrivals, 0);
    assert {} + {n0} == {n0};
    assert {n0} + {n1} == {n0, n1};
    assert |{n0, n1}| == 2;
    StepStores({n0}, Later(Some(m1)), a1);
    RunFromStep({n0}, Later(Some(m1)), arrivals, 1);
    assert arrivals[2..] == [a2];
  }

  /** The third reply of `CompleteRunOf` completes the three required
      services: the set is emptied and the aggregate returned. */
  lemma LastCompletes(a0: Arrival, a1: Arrival, a2: Arrival)
    requires Acceptable(a0.response) && Acceptable(a1.response) && Acceptable(a2.response)
    requires a0.serviceName.Some? && a1.serviceName.Some? && a2.serviceName.Some?
    requires a0.serviceName != a1.serviceName && a0.serviceName != a2.serviceName && a1.serviceName != a2.serviceName
    requires a0.serviceName.value in RequiredSet && a1.serviceName.value in RequiredSet
    requires a2.serviceName.value in RequiredSet
    ensures var n0, n1 := a0.serviceName.value, a1.serviceName.value;
            var m2 := map[n0 := Obj(a0.response.value)][n1 := Obj(a1.response.value)];
            RunFrom({n0, n1}, Later(Some(m2)), [a2])
              == RunResult(Ok(m2[a2.serviceName.value := Obj(a2.response.value)]), {})
  {
    var n0, n1, n2 := a0.serviceName.value, a1.serviceName.value, a2.serviceName.value;
    var m2 := map[n0 := Obj(a0.response.value)][n1 := Obj(a1.response.value)];
    var m3 := m2[n2 := Obj(a2.response.value)];
    ThreeDistinctRequired(n0, n1, n2);
    assert m3.Keys == RequiredSet;
    FirstMissingRequired(m3.Keys);
    assert {n0, n1} + {n2} == RequiredSet;
    StepChecks({n0, n1}, Later(Some(m2)), a2);
    RunFromStep({n0, n1}, Later(Some(m2)), [a2], 0);
    assert [a2][1..] == [];
  }

  /** Once the set holds the three required names, every later multicast
      whose first two replies are acceptable and come from two different
      required services fails at the second reply, reporting the third
      service as missing, and leaves the set as it was. The set stays full
      for good. */
  lemma FullSetFailsEveryRun(arrivals: seq<Arrival>)
    requires |arrivals| >= 2
    requires Acceptable(arrivals[0].response) && Acceptable(arrivals[1].response)
    requires arrivals[0].serviceName.Some? && arrivals[1].serviceName.Some?
    requires arrivals[0].serviceName.value in RequiredSet && arrivals[1].serviceName.value in RequiredSet
    requires arrivals[0].serviceName != arrivals[1].serviceName
    ensures var r := Run(RequiredSet, arrivals);
            var missing := FirstMissing(RequiredServices, {arrivals[0].serviceName.value, arrivals[1].serviceName.value});
            && missing.Some?
            && r == RunResult(Err(AggregationValidationException(MissingServiceMessage(missing.value))), RequiredSet)
  {
    var a0, a1 := arrivals[0], arrivals[1];
    var n0, n1 := a0.serviceName.value, a1.serviceName.value;
    var m1 := map[n0 := Obj(a0.response.value)];
    var m2 := m1[n1 := Obj(a1.response.value)];
    StepStores(RequiredSet, First, a0);
    assert RequiredSet + {n0} == RequiredSet;
    assert |RequiredSet| == 3;
    assert RequiredSet + {n1} == RequiredSet;
    StepChecks(RequiredSet, Later(Some(m1)), a1);
    assert m2.Keys == {n0, n1};
    FirstMissingRequired(m2.Keys);
    assert RequiredSet - {n0, n1} != {} by {
      assert {n0, n1} < RequiredSet by { assert |{n0, n1}| == 2; }
    }
    var rest := arrivals[1..];
    assert rest[0] == a1;
    assert Run(RequiredSet, arrivals) == RunFrom(RequiredSet, Later(Some(m1)), rest);
  }

  // ---- the order the route aggregates in -------------------------------

  /** The replies of one multicast as the route hands them over: the
      multicast does not stream, so they reach the strategy in the order of
      its `to` list, whatever order the calls complete in. */
  function ToListOrder(d: Option<map<string, Value>>, r: Option<map<string, Value>>,
                       e: Option<map<string, Value>>): (a: seq<Arrival>)
    ensures |a| == 3 && forall i :: 0 <= i < 3 ==> a[i].serviceName == Some(RequiredServices[i])
  {
    [Arrival(Some(Defraudadores), d), Arrival(Some(Restringido), r), Arrival(Some(Externas), e)]
  }

  /** Requests handled one at a time never fill the set: from a set holding
      at most the first two names, a multicast in `to`-list order leaves at
      most those two names behind, whatever its replies; and when all three
      replies are acceptable it succeeds with the three replies and empties
      the set. */
  lemma ToListOrderKeepsSetClean(p: set<string>, d: Option<map<string, Value>>, r: Option<map<string, Value>>,
                                 e: Option<map<string, Value>>)
    requires p <= {Defraudadores, Restringido}
    ensures var run := Run(p, ToListOrder(d, r, e));
            && run.processed <= {Defraudadores, Restringido}
            && (Acceptable(d) && Acceptable(r) && Acceptable(e) ==>
                  run == RunResult(Ok(map[Defraudadores := Obj(d.value), Restringido := Obj(r.value),
                                          Externas := Obj(e.value)]), {}))
  {
    var arrivals := ToListOrder(d, r, e);
    RunFromStep(p, First, arrivals, 0);
    if Acceptable(d) {
      StepStores(p, First, arrivals[0]);
      RestInOrder(p, map[Defraudadores := Obj(d.value)], r, e);
      assert arrivals[1..] == [arrivals[1], arrivals[2]];
    }
  }

  /** The three replies of one request, by service. */
  datatype ListReplies = ListReplies(d: Option<map<string, Value>>, r: Option<map<string, Value>>,
                                     e: Option<map<string, Value>>)

  /** The set after the strategy served `requests` one after another. */
  function SetAfter(p: set<string>, requests: seq<ListReplies>): set<string>
    decreases |requests|
  {
    if requests == [] then p
    else SetAfter(Run(p, ToListOrder(requests[0].d, requests[0].r, requests[0].e)).processed, requests[1..])
  }

  /** However many requests the strategy serves one at a time, whatever
      their replies, the set never holds more than the first two names, so
      a later request with three acceptable replies still succeeds
      (`ToListOrderKeepsSetClean`). */
  lemma {:induction false} SequentialRequestsKeepSetClean(p: set<string>, requests: seq<ListReplies>)
    requires p <= {Defraudadores, Restringido}
    ensures SetAfter(p, requests) <= {Defraudadores, Restringido}
    decreases |requests|
  {
    if requests != [] {
      var q := requests[0];
      ToListOrderKeepsSetClean(p, q.d, q.r, q.e);
      SequentialRequestsKeepSetClean(Run(p, ToListOrder(q.d, q.r, q.e)).processed, requests[1..]);
    }
  }

  /** `ToListOrderKeepsSetClean` after the `defraudadores` reply was stored. */
  lemma RestInOrder(p: set<string>, m1: map<string, Value>, r: Option<map<string, Value>>,
                    e: Option<map<string, Value>>)
    requires p <= {Defraudadores, Restringido} && m1.Keys == {Defraudadores}
    ensures var run := RunFrom(p + {Defraudadores}, Later(Some(m1)),
                               [Arrival(Some(Restringido), r), Arrival(Some(Externas), e)]);
            && run.processed <= {Defraudadores, Restringido}
            && (Acceptable(r) && Acceptable(e) ==>
                  run == RunResult(Ok(m1[Restringido := Obj(r.value)][Externas := Obj(e.value)]), {}))
  {
    var rest := [Arrival(Some(Restringido), r), Arrival(Some(Externas), e)];
    RunFromStep(p + {Defraudadores}, Later(Some(m1)), rest, 0);
    if Acceptable(r) {
      SecondInOrderStored(p, m1, rest[0]);
      LastInOrder(m1[Restringido := Obj(r.value)], e);
      assert rest[1..] == [rest[1]];
    }
  }

  /** `ToListOrderKeepsSetClean` for the `externas` reply alone. */
  lemma LastInOrder(m2: map<string, Value>, e: Option<map<string, Value>>)
    requires m2.Keys == {Defraudadores, Restringido}
    ensures var run := RunFrom({Defraudadores, Restringido}, Later(Some(m2)), [Arrival(Some(Externas), e)]);
            && run.processed <= {Defraudadores, Restringido}
            && (Acceptable(e) ==> run == RunResult(Ok(m2[Externas := Obj(e.value)]), {}))
  {
    var last := [Arrival(Some(Externas), e)];
    RunFromStep({Defraudadores, Restringido}, Later(Some(m2)), last, 0);
    if Acceptable(e) {
      ThirdInOrderCompletes(m2, last[0]);
      assert last[1..] == [];
    }
  }

  /** The `restringido` reply of a `to`-list-order multicast: the set then
      holds exactly the first two names, so the reply is stored unchecked. */
  lemma SecondInOrderStored(p: set<string>, m1: map<string, Value>, a: Arrival)
    requires p <= {Defraudadores, Restringido}
    requires a.serviceName == Some(Restringido) && Acceptable(a.response)
    ensures Step(p + {Defraudadores}, Later(Some(m1)), a)
            == StepResult(Ok(m1[Restringido := Obj(a.response.value)]), {Defraudadores, Restringido},
                          Some(m1[Restringido := Obj(a.response.value)]))
  {
    assert p + {Defraudadores} + {Restringido} == {Defraudadores, Restringido};
    assert |{Defraudadores, Restringido}| == 2;
    StepStores(p + {Defraudadores}, Later(Some(m1)), a);
  }

  /** The `externas` reply of a `to`-list-order multicast whose first two
      replies were stored: the set reaches three names, all three services
      are in the aggregate, and the set is emptied. */
  lemma ThirdInOrderCompletes(m2: map<string, Value>, a: Arrival)
    requires m2.Keys == {Defraudadores, Restringido}
    requires a.serviceName == Some(Externas) && Acceptable(a.response)
    ensures Step({Defraudadores, Restringido}, Later(Some(m2)), a)
            == StepResult(Ok(m2[Externas := Obj(a.response.value)]), {}, Some(m2[Externas := Obj(a.response.value)]))
  {
    var m3 := m2[Externas := Obj(a.response.value)];
    assert m3.Keys == RequiredSet;
    FirstMissingRequired(m3.Keys);
    assert {Defraudadores, Restringido} + {Externas} == RequiredSet;
    assert |RequiredSet| == 3;
    StepChecks({Defraudadores, Restringido}, Later(Some(m2)), a);
  }

  // ---- how concurrent requests fill the set ----------------------------

  /** The one strategy object serves every request, and `aggregate` calls
      of two requests running at once interleave on its set. Two requests
      whose replies are all acceptable, each in `to`-list order, calling
      alternately (A's `defraudadores`, B's, A's `restringido`, B's, A's
      `externas`, B's): both succeed with all three replies, but A's third
      call empties the set before B's, so B's `externas` is left behind. */
  lemma InterleavedRequestsLeaveStaleName(dA: map<string, Value>, rA: map<string, Value>, eA: map<string, Value>,
                                          dB: map<string, Value>, rB: map<string, Value>, eB: map<string, Value>)
    requires Acceptable(Some(dA)) && Acceptable(Some(rA)) && Acceptable(Some(eA))
    requires Acceptable(Some(dB)) && Acceptable(Some(rB)) && Acceptable(Some(eB))
    ensures var a := ToListOrder(Some(dA), Some(rA), Some(eA));
            var b := ToListOrder(Some(dB), Some(rB), Some(eB));
            var a1 := Step({}, First, a[0]);
            var b1 := Step(a1.processed, First, b[0]);
            var a2 := Step(b1.processed, Later(a1.written), a[1]);
            var b2 := Step(a2.processed, Later(b1.written), b[1]);
            var a3 := Step(b2.processed, Later(a2.written), a[2]);
            var b3 := Step(a3.processed, Later(b2.written), b[2]);
            && a3.outcome == Ok(map[Defraudadores := Obj(dA), Restringido := Obj(rA), Externas := Obj(eA)])
            && b3.outcome == Ok(map[Defraudadores := Obj(dB), Restringido := Obj(rB), Externas := Obj(eB)])
            && b3.processed == {Externas}
  {
    var a := ToListOrder(Some(dA), Some(rA), Some(eA));
    var b := ToListOrder(Some(dB), Some(rB), Some(eB));
    var mA1, mB1 := map[Defraudadores := Obj(dA)], map[Defraudadores := Obj(dB)];
    StepStores({}, First, a[0]);
    assert {} + {Defraudadores} == {Defraudadores};
    StepStores({Defraudadores}, First, b[0]);
    assert {Defraudadores} + {Defraudadores} == {Defraudadores};
    SecondInOrderStored({}, mA1, a[1]);
    SecondInOrderStored({Defraudadores}, mB1, b[1]);
    assert {Defraudadores} + {Defraudadores} == {} + {Defraudadores};
    var mA2 := mA1[Restringido := Obj(rA)];
    var mB2 := mB1[Restringido := Obj(rB)];
    ThirdInOrderCompletes(mA2, a[2]);
    assert {} + {Externas} == {Externas};
    StepStores({}, Later(Some(mB2)), b[2]);
  }

  /** The name left behind makes the next request fail even in `to`-list
      order: with `externas` in the set, its `restringido` reply brings the
      set to three names while `externas` is still missing from its
      aggregate, and the set is left full. */
  lemma StaleNameFailsNextRequest(d: map<string, Value>, r: map<string, Value>, e: map<string, Value>)
    requires Acceptable(Some(d)) && Acceptable(Some(r))
    ensures Run({Externas}, ToListOrder(Some(d), Some(r), Some(e)))
            == RunResult(Err(AggregationValidationException(MissingServiceMessage(Externas))), RequiredSet)
  {
    var arrivals := ToListOrder(Some(d), Some(r), Some(e));
    StepStores({Externas}, First, arrivals[0]);
    assert {Externas} + {Defraudadores} == {Externas, Defraudadores};
    RunFromStep({Externas}, First, arrivals, 0);
    StaleSecondReplyChecks(map[Defraudadores := Obj(d)], arrivals[1]);
    RunFromStep({Externas, Defraudadores}, Later(Some(map[Defraudadores := Obj(d)])), arrivals, 1);
  }

  /** The second step of `StaleNameFailsNextRequest`: the `restringido`
      reply makes three names, and `externas` is not in the aggregate. */
  lemma StaleSecondReplyChecks(m1: map<string, Value>, a: Arrival)
    requires m1.Keys == {Defraudadores}
    requires a.serviceName == Some(Restringido) && Acceptable(a.response)
    ensures Step({Externas, Defraudadores}, Later(Some(m1)), a)
            == StepResult(Err(AggregationValidationException(MissingServiceMessage(Externas))), RequiredSet,
                          Some(m1[Restringido := Obj(a.response.value)]))
  {
    var m2 := m1[Restringido := Obj(a.response.value)];
    assert {Externas, Defraudadores} + {Restringido} == RequiredSet;
    assert |RequiredSet| == 3;
    StepChecks({Externas, Defraudadores}, Later(Some(m1)), a);
    assert m2.Keys == {Defraudadores, Restringido};
    assert FirstMissing(RequiredServices, m2.Keys) == Some(Externas);
  }

  // ---- the strategy object ---------------------------------------------

  /** What `aggregate` reads from the old exchange. */
  function PriorOf(oldExchange: Camel.Exchange?): Prior
    reads oldExchange
  {
    if oldExchange == null then First else Later(Camel.AsValueMap(oldExchange.body))
  }

  /** What `aggregate` reads from the new exchange. */
  function ArrivalOf(newExchange: Camel.Exchange): Arrival
    reads newExchange
  {
    Arrival(Camel.StringProperty(newExchange.properties, ServiceNameProperty), Camel.AsValueMap(newExchange.body))
  }

  /** `validateAllResponses`: the first required service absent from the
      aggregate, which the caller then reports. */
  method ValidateAllResponses(aggregated: map<string, Value>) returns (missing: Option<string>)
    ensures missing == FirstMissing(RequiredServices, aggregated.Keys)
  {
    var i := 0;
    while i < |RequiredServices|
      invariant 0 <= i <= |RequiredServices|
      invariant FirstMissing(RequiredServices, aggregated.Keys) == FirstMissing(RequiredServices[i..], aggregated.Keys)
    {
      if RequiredServices[i] !in aggregated {
        return Some(RequiredServices[i]);
      }
      assert RequiredServices[i..][1..] == RequiredServices[i + 1..];
      i := i + 1;
    }
    return None;
  }

  class ResponseAggregationStrategy {
    /** The services seen since the set was last emptied. */
    var processedServices: set<string>

    constructor ()
      ensures processedServices == {}
    {
      processedServices := {};
    }

    /** `aggregate`. The exchange returned on success is the new exchange on
        the first call and the old one afterwards; the aggregate is written
        into that exchange's body before the final check, so a missing
        service is reported after the write. */
    method Aggregate(oldExchange: Camel.Exchange?, newExchange: Camel.Exchange)
      returns (r: Result<Camel.Exchange, Exception>)
      requires oldExchange != newExchange
      modifies this, oldExchange, newExchange
      ensures var st := Step(old(processedServices), old(PriorOf(oldExchange)), old(ArrivalOf(newExchange)));
              && processedServices == st.processed
              && (st.outcome.Ok? ==> r == Ok(if oldExchange == null then newExchange else oldExchange))
              && (st.outcome.Err? ==> r == Err(st.outcome.error))
              && (oldExchange == null ==>
                    newExchange.body == (if st.written.Some? then Camel.Raw(Obj(st.written.value)) else old(newExchange.body)))
              && (oldExchange != null ==>
                    && oldExchange.body == (if st.written.Some? then Camel.Raw(Obj(st.written.value)) else old(oldExchange.body))
                    && newExchange.body == old(newExchange.body)
                    && oldExchange.properties == old(oldExchange.properties)
                    && oldExchange.headers == old(oldExchange.headers))
      ensures newExchange.properties == old(newExchange.properties) && newExchange.headers == old(newExchange.headers)
    {
      var serviceName := Camel.StringProperty(newExchange.properties, ServiceNameProperty);
      var response := Camel.AsValueMap(newExchange.body);
      var validation := ValidateResponse(response, serviceName);
      if validation.Err? {
        return Err(Unexpected(validation.error));
      }
      if !validation.value.isValid {
        if oldExchange == null {
          return Err(InitialRejection(serviceName, validation.value.message));
        }
        return Err(Rejection(serviceName, validation.value.message));
      }
      if serviceName.None? {
        return Err(Unexpected(NullPointer));
      }
      var name := serviceName.value;
      if oldExchange == null {
        processedServices := processedServices + {name};
        newExchange.body := Camel.Raw(Obj(map[name := Obj(response.value)]));
        return Ok(newExchange);
      }
      var aggregated := Camel.AsValueMap(oldExchange.body).GetOr(map[]);
      aggregated := aggregated[name := Obj(response.value)];
      processedServices := processedServices + {name};
      oldExchange.body := Camel.Raw(Obj(aggregated));
      if |processedServices| == 3 {
        var missing := ValidateAllResponses(aggregated);
        if missing.Some? {
          return Err(AggregationValidationException(MissingServiceMessage(missing.value)));
        }
        processedServices := {};
      }
      return Ok(oldExchange);
    }
  }
}
