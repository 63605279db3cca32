/**
 * `SoapResponseProcessor`: the last processor of the route. It rebuilds the
 * original request from the `VerificarListasNegrasRequest` property, has
 * the metadata builder fill a result object from it and the typed replies,
 * and replaces the body by the marshalled SOAP reply.
 *
 * The JAXB marshaller is the parameter `marshal`; the clock reading the
 * builder stamps is the parameter `endDateTime`.
 */
module SoapResponse {
  import opened Values
  import opened Errors
  import opened Dtos
  import opened ListResult
  import MetadataBuilder
  import Services
  import Camel

  const RequestProperty: string := "VerificarListasNegrasRequest"
  const NullBodyMessage: string := "El body del mensaje no puede ser null"
  const MissingRequestMessage: string := "La propiedad 'VerificarListasNegrasRequest' o 'request' está ausente"

  /** `getBody(Map.class)` read as the typed replies. The typed map the
      final processor leaves passes; an untyped map passes the read, but
      a non-null entry under either list name then fails the cast to
      `ResponseDTO` when it is looked up (`Err`); any other body reads as
      null (`None`). */
  function TypedReplies(body: Camel.Body): (r: Option<Result<map<string, Option<ResponseDTO>>, ()>>)
    ensures body.Responses? ==> r == Some(Ok(body.dtos))
    ensures r.None? <==> Camel.AsValueMap(body).None? && !body.Responses?
  {
    match body
    case Responses(dtos) => Some(Ok(dtos))
    case Raw(Obj(m)) =>
      if Get(m, Services.Defraudadores).Null? && Get(m, Services.Restringido).Null? then Some(Ok(map[]))
      else Some(Err(()))
    case _ => None
  }

  /** The request rebuilt from the exchange property: a missing property
      or a null `request` entry is refused with one message; a `request`
      that is not a map, or a field that is not a string, fails a cast. */
  function RebuildRequest(properties: map<string, Value>): (r: Result<ListRequest, Exception>)
    ensures r.Ok? <==> && Get(properties, RequestProperty).Obj?
                       && Get(Get(properties, RequestProperty).fields, "request").Obj?
                       && RequestFromMap(Get(Get(properties, RequestProperty).fields, "request").fields).Ok?
    ensures r.Ok? ==> r.value == RequestFromMap(Get(Get(properties, RequestProperty).fields, "request").fields).value
    ensures r.Err? ==> r.error in {IllegalArgumentException(MissingRequestMessage), ClassCastException(CastMessage)}
    ensures !Get(properties, RequestProperty).Obj? ==> r == Err(IllegalArgumentException(MissingRequestMessage))
  {
    match Get(properties, RequestProperty)
    case Obj(property) =>
      (match Get(property, "request")
       case Null => Err(IllegalArgumentException(MissingRequestMessage))
       case Obj(request) =>
         (match RequestFromMap(request)
          case Ok(req) => Ok(req)
          case Err(_) => Err(ClassCastException(CastMessage)))
       case _ => Err(ClassCastException(CastMessage)))
    case _ => Err(IllegalArgumentException(MissingRequestMessage))
  }

  /** The result object `process` marshals, or the exception it throws. */
  function ResponseOutcome(body: Camel.Body, properties: map<string, Value>, endDateTime: string)
    : (r: Result<ResultView, Exception>)
    ensures TypedReplies(body).None? ==> r == Err(IllegalArgumentException(NullBodyMessage))
    ensures r.Ok? <==> && TypedReplies(body).Some? && TypedReplies(body).value.Ok?
                       && RebuildRequest(properties).Ok?
    ensures r.Ok? ==> r.value == MetadataBuilder.Verdict(
                        RebuildRequest(properties).value, TypedReplies(body).value.value,
                        Camel.StringProperty(properties, MetadataBuilder.RequestUuidProperty),
                        Camel.StringProperty(properties, MetadataBuilder.NameProperty), endDateTime)
  {
    match TypedReplies(body)
    case None => Err(IllegalArgumentException(NullBodyMessage))
    case Some(replies) =>
      match RebuildRequest(properties)
      case Err(e) => Err(e)
      case Ok(request) =>
        match replies
        case Err(_) => Err(ClassCastException(CastMessage))
        case Ok(dtos) =>
          Ok(MetadataBuilder.Verdict(request, dtos,
                                     Camel.StringProperty(properties, MetadataBuilder.RequestUuidProperty),
                                     Camel.StringProperty(properties, MetadataBuilder.NameProperty), endDateTime))
  }

  /** `process`: the body becomes the marshalled result, or the exchange is
      left as it was and the exception is thrown. */
  method Process(ex: Camel.Exchange, endDateTime: string, marshal: ResultView -> string)
    returns (thrown: Option<Exception>)
    modifies ex
    ensures var r := ResponseOutcome(old(ex.body), old(ex.properties), endDateTime);
            && (r.Ok? ==> thrown.None? && ex.body == Camel.Xml(marshal(r.value)))
            && (r.Err? ==> thrown == Some(r.error) && ex.body == old(ex.body))
    ensures ex.properties == old(ex.properties) && ex.headers == old(ex.headers)
  {
    var replies := TypedReplies(ex.body);
    if replies.None? {
      return Some(IllegalArgumentException(NullBodyMessage));
    }
    var request := RebuildRequest(ex.properties);
    if request.Err? {
      return Some(request.error);
    }
    if replies.value.Err? {
      return Some(ClassCastException(CastMessage));
    }
    var result := MetadataBuilder.CreateVerificarListasNegrasResult(request.value, replies.value.value, ex, endDateTime);
    ex.body := Camel.Xml(marshal(result.View()));
    return None;
  }

  /** The SOAP reply echoes the request it was rebuilt from, whatever the
      replies say. */
  lemma ReplyEchoesRequest(body: Camel.Body, properties: map<string, Value>, endDateTime: string)
    requires ResponseOutcome(body, properties, endDateTime).Ok?
    ensures var v := ResponseOutcome(body, properties, endDateTime).value;
            var req := RebuildRequest(properties).value;
            v.canal == req.canal && v.usuario == req.usuario && v.terminal == req.terminal
            && v.version == req.version && v.endDateTime == Some(endDateTime)
  {
    MetadataBuilder.MetadataEchoed(RebuildRequest(properties).value, TypedReplies(body).value.value,
                                   Camel.StringProperty(properties, MetadataBuilder.RequestUuidProperty),
                                   Camel.StringProperty(properties, MetadataBuilder.NameProperty), endDateTime);
  }
}
