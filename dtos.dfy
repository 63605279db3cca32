/**
 * The plain data-transfer objects: the typed backend reply
 * (`ResponseDTO`, `HeaderDTO`, `BodyDTO`), one entry of the SOAP `Listas`
 * element, and the inbound `VerificarListasNegrasRequest`. Nullable Java
 * references are `Option`s.
 */
module Dtos {
  import opened Values

  /** `HeaderDTO`: the code is a primitive `int`, so it is never null. */
  datatype HeaderDTO = HeaderDTO(responseCode: int, responseMessage: Option<string>)

  /** `BodyDTO`: only `result` is ever filled by the service. */
  datatype BodyDTO = BodyDTO(result: Option<bool>)

  datatype ResponseDTO = ResponseDTO(header: Option<HeaderDTO>, body: Option<BodyDTO>)

  /** One `Lista` of the SOAP reply: list name and its origin. */
  datatype Lista = Lista(nombre: string, origen: string)

  /** `VerificarListasNegrasRequest`, fields in constructor order. */
  datatype ListRequest = ListRequest(
    canal: Option<string>,
    usuario: Option<string>,
    terminal: Option<string>,
    fechaHora: Option<string>,
    version: Option<string>,
    identificacion: Option<string>,
    tipoIdentificacion: Option<string>)

  /** The request's entry keys, in the order both processors read them. */
  const RequestKeys: seq<string> :=
    ["Canal", "Usuario", "Terminal", "FechaHora", "Version", "Identificacion", "TipoIdentificacion"]

  /** Build the request from the `request` map, casting each entry to
      `String` in constructor order; the first entry that is not a string
      fails the cast. */
  function RequestFromMap(m: map<string, Value>): (r: Result<ListRequest, ()>)
    ensures r.Ok? <==> forall k :: k in RequestKeys ==> AsString(Get(m, k)).Ok?
    ensures r.Ok? ==> forall i :: 0 <= i < |RequestKeys| ==> AsString(Get(m, RequestKeys[i])) == Ok(RequestFields(r.value)[i])
  {
    var canal := AsString(Get(m, "Canal"));
    var usuario := AsString(Get(m, "Usuario"));
    var terminal := AsString(Get(m, "Terminal"));
    var fechaHora := AsString(Get(m, "FechaHora"));
    var version := AsString(Get(m, "Version"));
    var identificacion := AsString(Get(m, "Identificacion"));
    var tipo := AsString(Get(m, "TipoIdentificacion"));
    if canal.Err? || usuario.Err? || terminal.Err? || fechaHora.Err? || version.Err?
       || identificacion.Err? || tipo.Err?
    then Err(())
    else Ok(ListRequest(canal.value, usuario.value, terminal.value, fechaHora.value,
                        version.value, identificacion.value, tipo.value))
  }

  /** The request's fields, in constructor order. */
  function RequestFields(r: ListRequest): seq<Option<string>> {
    [r.canal, r.usuario, r.terminal, r.fechaHora, r.version, r.identificacion, r.tipoIdentificacion]
  }

  /** The identification fields of a built request are the two entries it
      was built from. */
  lemma IdentificationFromMap(m: map<string, Value>)
    requires RequestFromMap(m).Ok?
    ensures AsString(Get(m, "Identificacion")) == Ok(RequestFromMap(m).value.identificacion)
    ensures AsString(Get(m, "TipoIdentificacion")) == Ok(RequestFromMap(m).value.tipoIdentificacion)
  {
  }
}
