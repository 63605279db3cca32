/**
 * `ResponseTransformer`: replaces the SOAP request body by the two-entry map
 * the backend services are called with, `identificationNumber` and
 * `identificationType`.
 */
module ResponseTransformer {
  import opened Values
  import opened Errors
  import Camel
  import IdentificationValidator
  import Dtos

  const IdentificationKey: string := "Identificacion"
  const IdentificationTypeKey: string := "TipoIdentificacion"
  const NumberKey: string := "identificationNumber"
  const TypeKey: string := "identificationType"

  /** `validateRequestFields`: both keys must be present, and then both
      values must be non-null. */
  function ValidateRequestFields(request: map<string, Value>): (r: Outcome<string>)
    ensures r.Pass? <==> && IdentificationKey in request && IdentificationTypeKey in request
                         && !request[IdentificationKey].Null? && !request[IdentificationTypeKey].Null?
    ensures (IdentificationKey !in request || IdentificationTypeKey !in request) ==>
              r == Fail("Los campos de identificación son requeridos en el request")
    ensures r.Fail? && IdentificationKey in request && IdentificationTypeKey in request ==>
              r == Fail("Los valores de identificación no pueden ser null")
  {
    if IdentificationKey !in request || IdentificationTypeKey !in request then
      Fail("Los campos de identificación son requeridos en el request")
    else if Get(request, IdentificationKey).Null? || Get(request, IdentificationTypeKey).Null? then
      Fail("Los valores de identificación no pueden ser null")
    else Pass
  }

  /** `transformResponse`: the error is the message of the exception. The
      two values are copied as they are (they are not cast to `String`). */
  function TransformResponse(body: Option<map<string, Value>>): (r: Result<map<string, Value>, string>)
    ensures body.None? ==> r == Err("Body no puede ser null")
    ensures body.Some? && Get(body.value, "request").Null? ==> r == Err("Request no puede ser null")
    ensures r.Ok? <==> body.Some? && Get(body.value, "request").Obj?
                       && ValidateRequestFields(Get(body.value, "request").fields).Pass?
    ensures r.Ok? ==> var request := Get(body.value, "request").fields;
                      && r.value.Keys == {NumberKey, TypeKey}
                      && r.value[NumberKey] == request[IdentificationKey]
                      && r.value[TypeKey] == request[IdentificationTypeKey]
  {
    match body
    case None => Err("Body no puede ser null")
    case Some(m) =>
      match Get(m, "request")
      case Null => Err("Request no puede ser null")
      case Obj(request) =>
        (match ValidateRequestFields(request)
         case Fail(msg) => Err(msg)
         case Pass => Ok(map[NumberKey := request[IdentificationKey], TypeKey := request[IdentificationTypeKey]]))
      case _ => Err(CastMessage)
  }

  /** `process`: on success the body becomes the two-entry map; on failure
      the body is kept and an `IllegalStateException` wraps the message. */
  method Process(ex: Camel.Exchange) returns (thrown: Option<Exception>)
    modifies ex
    ensures var r := TransformResponse(Camel.AsValueMap(old(ex.body)));
            && (r.Ok? ==> thrown.None? && ex.body == Camel.Raw(Obj(r.value)))
            && (r.Err? ==> thrown == Some(IllegalStateException("Error en transformación de respuesta: " + r.error))
                           && ex.body == old(ex.body))
    ensures ex.properties == old(ex.properties) && ex.headers == old(ex.headers)
  {
    match TransformResponse(Camel.AsValueMap(ex.body))
    case Ok(m) =>
      ex.body := Camel.Raw(Obj(m));
      thrown := None;
    case Err(msg) =>
      thrown := Some(IllegalStateException("Error en transformación de respuesta: " + msg));
  }

  /** A body the validator lets through always transforms, into the
      validated number and type as strings. */
  lemma ValidatedRequestTransforms(body: Option<map<string, Value>>)
    requires IdentificationValidator.ProcessOutcome(body).Pass?
    ensures var req := IdentificationValidator.ExtractRequest(body).value;
            TransformResponse(body)
              == Ok(map[NumberKey := Str(req.identificacion.value), TypeKey := Str(req.tipoIdentificacion.value)])
  {
    var req := IdentificationValidator.ExtractRequest(body).value;
    var request := Get(body.value, "request").fields;
    var id, tipo := req.identificacion.value, req.tipoIdentificacion.value;
    assert IdentificationKey in request && request[IdentificationKey] == Str(id)
        && IdentificationTypeKey in request && request[IdentificationTypeKey] == Str(tipo) by {
      assert IdentificationValidator.IsValidIdentification(req);
      assert req == Dtos.RequestFromMap(request).value;
      Dtos.IdentificationFromMap(request);
      StringEntry(request, IdentificationKey, id);
      StringEntry(request, IdentificationTypeKey, tipo);
    }
    StringEntriesTransform(body.value, request, id, tipo);
  }

  /** A request holding the two identification entries as strings
      transforms into the map of exactly those two strings. */
  lemma StringEntriesTransform(body: map<string, Value>, request: map<string, Value>, id: string, tipo: string)
    requires Get(body, "request") == Obj(request)
    requires IdentificationKey in request && request[IdentificationKey] == Str(id)
    requires IdentificationTypeKey in request && request[IdentificationTypeKey] == Str(tipo)
    ensures TransformResponse(Some(body)) == Ok(map[NumberKey := Str(id), TypeKey := Str(tipo)])
  {
    assert ValidateRequestFields(request).Pass?;
  }

  /** An entry that casts to a non-null string is present and holds it. */
  lemma StringEntry(m: map<string, Value>, key: string, s: string)
    requires AsString(Get(m, key)) == Ok(Some(s))
    ensures key in m && m[key] == Str(s)
  {
  }

  /** A request whose type key is absent is rejected for the missing key,
      whatever the number holds. */
  lemma MissingKeyReportedFirst(body: map<string, Value>, request: map<string, Value>)
    requires Get(body, "request") == Obj(request)
    requires IdentificationTypeKey !in request
    ensures TransformResponse(Some(body)) == Err("Los campos de identificación son requeridos en el request")
  {
  }
}
