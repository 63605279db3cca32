/**
 * The part of a Camel `Exchange` the processors touch: the message body,
 * the exchange properties and the message headers. The body changes type
 * as the request moves along the route, so it is a sum of the shapes it
 * takes.
 */
module Camel {
  import opened Values
  import Dtos
  import SoapFaultBuilder

  datatype Body =
      /** An unmarshalled document (a map, a string, null, ...). */
    | Raw(value: Value)
      /** The typed replies `FinalResponseProcessor` leaves behind. */
    | Responses(dtos: map<string, Option<Dtos.ResponseDTO>>)
      /** The marshalled SOAP response. */
    | Xml(text: string)
      /** A fault set as the reply by an error handler. */
    | FaultBody(fault: SoapFaultBuilder.Fault)

  /** `getBody(Map.class)` for a body of untyped maps: anything that is not
      a map reads as null. */
  function AsValueMap(b: Body): Option<map<string, Value>> {
    if b.Raw? && b.value.Obj? then Some(b.value.fields) else None
  }

  /** `getProperty(name, String.class)` for a property that holds a string. */
  function StringProperty(properties: map<string, Value>, name: string): Option<string> {
    match Get(properties, name)
    case Str(s) => Some(s)
    case _ => None
  }

  const HttpResponseCode: string := "CamelHttpResponseCode"

  class Exchange {
    var body: Body
    var properties: map<string, Value>
    var headers: map<string, Value>

    constructor (body: Body, properties: map<string, Value>)
      ensures this.body == body && this.properties == properties && headers == map[]
    {
      this.body := body;
      this.properties := properties;
      headers := map[];
    }
  }
}
