/**
 * `FinalResponseProcessor`: turns the aggregated replies into typed
 * `ResponseDTO`s and accepts them only if every one of them carries the
 * code 200. The aggregation strategy lets five codes through; this
 * processor then rejects every reply whose code is not 200.
 */
module FinalResponse {
  import opened Values
  import opened Errors
  import opened Dtos
  import opened Services
  import opened SoapFaultBuilder
  import Camel
  import Aggregation

  const FaultsNs: string := "http://banreservas.com/faults"

  const NotAMapMessage: string := "El objeto recibido no es un Map."
  const MappingMessage: string := "Error mapeando la respuesta al ResponseDTO"
  const FinalValidationMessage: string := "Error en la validación de las respuestas finales"

  function MissingServiceFault(service: string): Fault {
    CreateValidationFault(MissingServiceMessage(service), "MISSING_SERVICE_RESPONSE", FaultsNs, 400)
  }

  function FinalValidationFault(): Fault {
    CreateValidationFault(FinalValidationMessage, "VALIDATION_ERROR", FaultsNs, 400)
  }

  // ---- mapToDto --------------------------------------------------------

  /** `(Integer) v` passed to an `int` setter: only a number in the 32-bit
      range (which is what the JSON reader makes an `Integer`) passes; null
      fails the unboxing and anything else the cast. */
  function AsInt(v: Value): (r: Result<int, Cause>)
    ensures r.Ok? <==> v.Num? && InIntRange(v.n)
    ensures r.Ok? ==> r.value == v.n
  {
    match v
    case Null => Err(NullPointer)
    case Num(n) => if InIntRange(n) then Ok(n) else Err(ClassCast)
    case _ => Err(ClassCast)
  }

  /** `(Boolean) v`: null passes as null. */
  function AsBoolean(v: Value): (r: Result<Option<bool>, Cause>)
    ensures r.Ok? <==> v.Null? || v.Bool?
  {
    match v
    case Null => Ok(None)
    case Bool(b) => Ok(Some(b))
    case _ => Err(ClassCast)
  }

  /** The `header` part of `mapToDto`: absent stays absent. */
  function MapHeader(v: Value): (r: Result<Option<HeaderDTO>, Cause>)
    ensures r.Ok? && r.value.Some? <==> v.Obj? && AsInt(Get(v.fields, "responseCode")).Ok?
                                        && AsString(Get(v.fields, "responseMessage")).Ok?
    ensures r.Ok? && r.value.Some? ==> r.value.value.responseCode == Get(v.fields, "responseCode").n
    ensures r == Ok(None) <==> v.Null?
  {
    match v
    case Null => Ok(None)
    case Obj(h) =>
      (match AsInt(Get(h, "responseCode"))
       case Err(c) => Err(c)
       case Ok(code) =>
         match AsString(Get(h, "responseMessage"))
         case Err(_) => Err(ClassCast)
         case Ok(message) => Ok(Some(HeaderDTO(code, message))))
    case _ => Err(ClassCast)
  }

  /** The `body` part of `mapToDto`. */
  function MapBody(v: Value): (r: Result<Option<BodyDTO>, Cause>)
    ensures r.Ok? && r.value.Some? <==> v.Obj? && AsBoolean(Get(v.fields, "result")).Ok?
    ensures r == Ok(None) <==> v.Null?
  {
    match v
    case Null => Ok(None)
    case Obj(b) =>
      (match AsBoolean(Get(b, "result"))
       case Err(c) => Err(c)
       case Ok(result) => Ok(Some(BodyDTO(result))))
    case _ => Err(ClassCast)
  }

  /** `mapToDto`: null maps to null, a non-map is refused, and any failure
      inside the mapping becomes one `IllegalArgumentException`. */
  function MapToDto(response: Value): (r: Result<Option<ResponseDTO>, Exception>)
    ensures r == Ok(None) <==> response.Null?
    ensures !response.Null? && !response.Obj? ==> r == Err(IllegalArgumentException(NotAMapMessage))
    ensures response.Obj? ==>
              (r.Ok? <==> MapHeader(Get(response.fields, "header")).Ok? && MapBody(Get(response.fields, "body")).Ok?)
    ensures response.Obj? && r.Err? ==> r == Err(IllegalArgumentException(MappingMessage))
    ensures r.Ok? && r.value.Some? ==>
              && r.value.value.header == MapHeader(Get(response.fields, "header")).value
              && r.value.value.body == MapBody(Get(response.fields, "body")).value
  {
    match response
    case Null => Ok(None)
    case Obj(m) =>
      (match (MapHeader(Get(m, "header")), MapBody(Get(m, "body")))
       case (Ok(header), Ok(body)) => Ok(Some(ResponseDTO(header, body)))
       case _ => Err(IllegalArgumentException(MappingMessage)))
    case _ => Err(IllegalArgumentException(NotAMapMessage))
  }

  // ---- isValidResponse / isValidFinalResponse --------------------------

  /** `isValidResponse`: present, with a header, with code 200. */
  predicate IsValidResponse(dto: Option<ResponseDTO>) {
    dto.Some? && dto.value.header.Some? && dto.value.header.value.responseCode == 200
  }

  /** `isValidFinalResponse`: every mapped reply is valid. */
  predicate IsValidFinalResponse(dtos: map<string, Option<ResponseDTO>>) {
    forall s :: s in dtos ==> IsValidResponse(dtos[s])
  }

  // ---- process ---------------------------------------------------------

  /** The mapping loop of `process` over `services`, stopping at the first
      reply that fails to map. */
  function MapAll(aggregated: map<string, Value>, services: seq<string>)
    : Result<map<string, Option<ResponseDTO>>, Exception>
    decreases |services|
  {
    if services == [] then Ok(map[])
    else
      var last := services[|services| - 1];
      match MapAll(aggregated, services[..|services| - 1])
      case Err(e) => Err(e)
      case Ok(dtos) =>
        match MapToDto(Get(aggregated, last))
        case Err(e) => Err(e)
        case Ok(dto) => Ok(dtos[last := dto])
  }

  /** The mapping succeeds exactly when every reply maps; its keys are then
      the services, each with its DTO; a failure is the error of a reply
      that failed to map. */
  lemma {:induction false} MapAllMeaning(aggregated: map<string, Value>, services: seq<string>)
    ensures var r := MapAll(aggregated, services);
            && (r.Ok? <==> forall i :: 0 <= i < |services| ==> MapToDto(Get(aggregated, services[i])).Ok?)
            && (r.Ok? ==> && (forall s :: s in r.value <==> s in services)
                          && forall i :: 0 <= i < |services| ==>
                               r.value[services[i]] == MapToDto(Get(aggregated, services[i])).value)
            && (r.Err? ==> exists i :: && 0 <= i < |services|
                                       && MapToDto(Get(aggregated, services[i])).Err?
                                       && r == Err(MapToDto(Get(aggregated, services[i])).error))
    decreases |services|
  {
    if services != [] {
      var last := services[|services| - 1];
      var front := services[..|services| - 1];
      MapAllMeaning(aggregated, front);
      assert forall i :: 0 <= i < |front| ==> front[i] == services[i];
      assert forall s :: s in services <==> s in front || s == last;
      var r := MapAll(aggregated, services);
      if MapAll(aggregated, front).Ok? && MapToDto(Get(aggregated, last)).Err? {
        assert MapToDto(Get(aggregated, services[|services| - 1])).Err?;
      }
    }
  }

  /** The reference statement of a body the processor accepts: each
      required reply is present and maps to a DTO with code 200. */
  predicate AllConfirmed(aggregated: map<string, Value>) {
    forall s :: s in RequiredSet ==>
      && s in aggregated
      && MapToDto(aggregated[s]).Ok?
      && IsValidResponse(MapToDto(aggregated[s]).value)
  }

  /** What `process` does with the body it finds. A body that is not a map
      fails on its first use, a null-pointer exception. */
  function FinalOutcome(body: Option<map<string, Value>>): (r: Result<map<string, Option<ResponseDTO>>, Exception>)
    ensures r.Ok? <==> body.Some? && AllConfirmed(body.value)
    ensures r.Ok? ==> r.value.Keys == RequiredSet && IsValidFinalResponse(r.value)
    ensures body.Some? && FirstMissing(RequiredServices, body.value.Keys).Some? ==>
              r == Err(SoapFault(MissingServiceFault(FirstMissing(RequiredServices, body.value.Keys).value)))
  {
    match body
    case None => Err(NullPointerException)
    case Some(aggregated) =>
      match FirstMissing(RequiredServices, aggregated.Keys)
      case Some(service) =>
        FirstMissingRequired(aggregated.Keys);
        Err(SoapFault(MissingServiceFault(service)))
      case None =>
        FirstMissingRequired(aggregated.Keys);
        MappedIffConfirmed(aggregated);
        match MapAll(aggregated, RequiredServices)
        case Err(e) => Err(e)
        case Ok(dtos) =>
          if IsValidFinalResponse(dtos) then Ok(dtos)
          else Err(SoapFault(FinalValidationFault()))
  }

  /** With every required reply present, the mapping succeeds with only
      code-200 replies exactly when every required reply is confirmed, and
      then holds one DTO per required service. */
  lemma MappedIffConfirmed(aggregated: map<string, Value>)
    requires RequiredSet <= aggregated.Keys
    ensures var r := MapAll(aggregated, RequiredServices);
            && (r.Ok? && IsValidFinalResponse(r.value) <==> AllConfirmed(aggregated))
            && (r.Ok? ==> r.value.Keys == RequiredSet)
  {
    MapAllMeaning(aggregated, RequiredServices);
    assert forall s :: s in RequiredSet <==> s in RequiredServices;
    var r := MapAll(aggregated, RequiredServices);
    if r.Ok? {
      assert r.value.Keys == RequiredSet;
      assert forall s :: s in RequiredSet ==> Get(aggregated, s) == aggregated[s];
      forall s | s in RequiredSet
        ensures r.value[s] == MapToDto(aggregated[s]).value
      {
        var i :| 0 <= i < 3 && RequiredServices[i] == s;
      }
    } else {
      var i :| 0 <= i < 3 && MapToDto(Get(aggregated, RequiredServices[i])).Err?;
      assert RequiredServices[i] in RequiredSet;
    }
  }

  /** `validateRequiredResponses`: the fault for the first required service
      absent from the aggregate. */
  method ValidateRequiredResponses(aggregated: map<string, Value>) returns (fault: Option<Fault>)
    ensures fault.None? <==> RequiredSet <= aggregated.Keys
    ensures fault.Some? ==> && FirstMissing(RequiredServices, aggregated.Keys).Some?
                            && fault.value == MissingServiceFault(FirstMissing(RequiredServices, aggregated.Keys).value)
  {
    FirstMissingRequired(aggregated.Keys);
    var i := 0;
    while i < |RequiredServices|
      invariant 0 <= i <= |RequiredServices|
      invariant forall j :: 0 <= j < i ==> RequiredServices[j] in aggregated
    {
      if RequiredServices[i] !in aggregated {
        assert FirstMissing(RequiredServices, aggregated.Keys) == Some(RequiredServices[i]) by {
          FirstMissingAt(RequiredServices, aggregated.Keys, i);
        }
        return Some(MissingServiceFault(RequiredServices[i]));
      }
      i := i + 1;
    }
    return None;
  }

  /** The first missing name is the one at the first index not present. */
  lemma {:induction false} FirstMissingAt(names: seq<string>, present: set<string>, i: nat)
    requires i < |names| && names[i] !in present
    requires forall j :: 0 <= j < i ==> names[j] in present
    ensures FirstMissing(names, present) == Some(names[i])
    decreases i
  {
    if i > 0 {
      FirstMissingAt(names[1..], present, i - 1);
    }
  }

  /** `process`: the body is replaced by the typed replies only when all
      checks pass; otherwise the exchange is left as it was. */
  method Process(ex: Camel.Exchange) returns (thrown: Option<Exception>)
    modifies ex
    ensures var r := FinalOutcome(Camel.AsValueMap(old(ex.body)));
            && (r.Ok? ==> thrown.None? && ex.body == Camel.Responses(r.value))
            && (r.Err? ==> thrown == Some(r.error) && ex.body == old(ex.body))
    ensures ex.properties == old(ex.properties) && ex.headers == old(ex.headers)
  {
    var body := Camel.AsValueMap(ex.body);
    if body.None? {
      return Some(NullPointerException);
    }
    var aggregated := body.value;
    var fault := ValidateRequiredResponses(aggregated);
    if fault.Some? {
      return Some(SoapFault(fault.value));
    }
    var mapped := MapRequired(aggregated);
    FinalOutcomeAfterCheck(aggregated);
    if mapped.Err? {
      return Some(mapped.error);
    }
    if !IsValidFinalResponse(mapped.value) {
      return Some(SoapFault(FinalValidationFault()));
    }
    ex.body := Camel.Responses(mapped.value);
    return None;
  }

  /** Once every required reply is present, the outcome is decided by the
      mapping and then by the code check. */
  lemma FinalOutcomeAfterCheck(aggregated: map<string, Value>)
    requires RequiredSet <= aggregated.Keys
    ensures var mapped := MapAll(aggregated, RequiredServices);
            FinalOutcome(Some(aggregated))
              == if mapped.Err? then Err(mapped.error)
                 else if IsValidFinalResponse(mapped.value) then Ok(mapped.value)
                 else Err(SoapFault(FinalValidationFault()))
  {
    FirstMissingRequired(aggregated.Keys);
  }

  /** The mapping loop of `process`: each required reply in turn, stopping
      at the first that fails to map. */
  method MapRequired(aggregated: map<string, Value>) returns (r: Result<map<string, Option<ResponseDTO>>, Exception>)
    ensures r == MapAll(aggregated, RequiredServices)
  {
    var mapped: map<string, Option<ResponseDTO>> := map[];
    var i := 0;
    while i < |RequiredServices|
      invariant 0 <= i <= |RequiredServices|
      invariant MapAll(aggregated, RequiredServices[..i]) == Ok(mapped)
    {
      var service := RequiredServices[i];
      assert RequiredServices[..i + 1][..i] == RequiredServices[..i];
      var dto := MapToDto(Get(aggregated, service));
      if dto.Err? {
        MapAllStopsAt(aggregated, RequiredServices, i);
        return Err(dto.error);
      }
      mapped := mapped[service := dto.value];
      i := i + 1;
    }
    assert RequiredServices[..i] == RequiredServices;
    return Ok(mapped);
  }

  /** The mapping stops at the first reply that fails, whatever follows it. */
  lemma {:induction false} MapAllStopsAt(aggregated: map<string, Value>, services: seq<string>, i: nat)
    requires i < |services|
    requires MapAll(aggregated, services[..i]).Ok?
    requires MapToDto(Get(aggregated, services[i])).Err?
    ensures MapAll(aggregated, services) == Err(MapToDto(Get(aggregated, services[i])).error)
    decreases |services|
  {
    if i == |services| - 1 {
      assert services[..|services| - 1] == services[..i];
    } else {
      var front := services[..|services| - 1];
      assert front[..i] == services[..i];
      MapAllStopsAt(aggregated, front, i);
    }
  }

  // ---- how the two gates relate ----------------------------------------

  /** A reply the final processor confirms was also accepted by the
      aggregation strategy. */
  lemma ConfirmedIsAcceptable(response: map<string, Value>)
    requires MapToDto(Obj(response)).Ok? && IsValidResponse(MapToDto(Obj(response)).value)
    ensures Aggregation.Acceptable(Some(response))
  {
    Aggregation.ParseNumericCode(200);
  }

  /** A reply with any of the other four codes the strategy accepts passes
      the aggregation but makes the final processor reject the whole
      verification with its 400 fault. */
  lemma NonSuccessCodeRejectedAtTheEnd(aggregated: map<string, Value>, service: string)
    requires RequiredSet <= aggregated.Keys
    requires forall s :: s in RequiredSet ==> MapToDto(aggregated[s]).Ok?
    requires service in RequiredSet && aggregated[service].Obj?
    requires Get(aggregated[service].fields, "header").Obj?
    requires var code := Get(Get(aggregated[service].fields, "header").fields, "responseCode");
             code.Num? && code.n in {400, 404, 500, 503}
    ensures Aggregation.Acceptable(Some(aggregated[service].fields))
    ensures FinalOutcome(Some(aggregated)) == Err(SoapFault(FinalValidationFault()))
  {
    var code := Get(Get(aggregated[service].fields, "header").fields, "responseCode");
    Aggregation.ParseNumericCode(code.n);
    FirstMissingRequired(aggregated.Keys);
    MapAllMeaning(aggregated, RequiredServices);
    assert !AllConfirmed(aggregated);
  }

  /** A code sent as the text "200" is accepted by the aggregation (which
      parses it) but fails the final mapping (which casts it). */
  lemma TextCodeAcceptedThenRefused(response: map<string, Value>)
    requires Get(response, "header") == Obj(map["responseCode" := Str("200")])
    ensures Aggregation.Acceptable(Some(response))
    ensures MapToDto(Obj(response)) == Err(IllegalArgumentException(MappingMessage))
  {
    Aggregation.ParseNumericCode(200);
    assert DecimalString(200) == "200";
  }
}
