/**
 * `SoapMetadataBuilder`: fills a `VerificarListasNegrasResult` from the
 * original request, the typed backend replies and the exchange. The
 * verdict looks at two replies only, `defraudadores` and `restringido`: a
 * reply whose body `result` is `TRUE` counts as a match on that list.
 *
 * `Verdict` states the finished result as a value; the builder method,
 * which works through the setters as the source does, is proved to produce
 * it.
 */
module MetadataBuilder {
  import opened Values
  import opened Dtos
  import opened Validation
  import opened ListResult
  import opened Services
  import Camel

  const RequestUuidProperty: string := "RequestUUID"
  const NameProperty: string := "name"

  /** `Map.get` on the typed replies. */
  function Lookup(response: map<string, Option<ResponseDTO>>, service: string): Option<ResponseDTO> {
    if service in response then response[service] else None
  }

  /** `isValidResponse` of the builder: a reply whose body says `TRUE`. */
  predicate IsMatch(dto: Option<ResponseDTO>) {
    dto.Some? && dto.value.body.Some? && dto.value.body.value.result == Some(true)
  }

  /** `validateResponses`: the two match flags, read from the two lists. */
  function ValidateResponses(response: map<string, Option<ResponseDTO>>): (v: ValidationResult)
    ensures v.isValid && v.message == "OK"
    ensures v.isDefraudador <==> IsMatch(Lookup(response, Defraudadores))
    ensures v.isRestringido <==> IsMatch(Lookup(response, Restringido))
  {
    var isRestringido := IsMatch(Lookup(response, Restringido));
    var isDefraudador := IsMatch(Lookup(response, Defraudadores));
    ForLists(isDefraudador, isRestringido)
  }

  /** The list-name suffix of the match message. */
  function MatchSuffix(isDefraudador: bool, isRestringido: bool): string {
    if isDefraudador && isRestringido then "s defraudador y restringido"
    else if isDefraudador then " defraudador"
    else " restringido"
  }

  /** `buildMessage`: the `name` property is concatenated as Java prints it. */
  function BuildMessage(v: ValidationResult, name: Option<string>): string {
    "El usuario " + Text(name) + " se encuentra en lista" + MatchSuffix(v.isDefraudador, v.isRestringido)
  }

  const DefraudadoresLista: Lista := Lista("Defraudadores", "Interna")
  const RestringidosLista: Lista := Lista("Restringidos", "Interna")

  /** The lists of the reply for the two match flags, as a value. */
  function MatchedLists(isDefraudador: bool, isRestringido: bool): seq<Lista> {
    (if isDefraudador then [DefraudadoresLista] else []) + (if isRestringido then [RestringidosLista] else [])
  }

  /** The list part of the result, as a value. */
  datatype ListOutcome = ListOutcome(resultado: string, mensaje: string, concidencia: bool, listas: Option<seq<Lista>>)

  /** The list part of the result for the typed replies and the `name`
      property. */
  function ListVerdict(response: map<string, Option<ResponseDTO>>, name: Option<string>): ListOutcome {
    var d := IsMatch(Lookup(response, Defraudadores));
    var r := IsMatch(Lookup(response, Restringido));
    if d || r then
      ListOutcome("1", "El usuario " + Text(name) + " se encuentra en lista" + MatchSuffix(d, r), true,
                  Some(MatchedLists(d, r)))
    else
      ListOutcome("0", "Exito", false, None)
  }

  /** The finished result for a request, its typed replies, the
      `RequestUUID` and `name` properties and the clock reading. */
  function Verdict(request: ListRequest, response: map<string, Option<ResponseDTO>>,
                   transactionId: Option<string>, name: Option<string>, endDateTime: string): ResultView
  {
    var o := ListVerdict(response, name);
    ResultView(request.canal, request.usuario, request.terminal, Some(endDateTime), request.version, transactionId,
               Some(o.resultado), Some(o.mensaje), Some(o.concidencia), o.listas)
  }

  // ---- the builder, through the setters --------------------------------

  /** `createVerificarListasNegrasResult`. The clock is the parameter
      `endDateTime`. */
  method CreateVerificarListasNegrasResult(request: ListRequest, response: map<string, Option<ResponseDTO>>,
                                           ex: Camel.Exchange, endDateTime: string)
    returns (result: VerificarListasNegrasResult)
    ensures fresh(result)
    ensures result.View() == Verdict(request, response, Camel.StringProperty(ex.properties, RequestUuidProperty),
                                     Camel.StringProperty(ex.properties, NameProperty), endDateTime)
  {
    result := new VerificarListasNegrasResult.Empty();
    SetBasicMetadata(result, request, ex, endDateTime);
    ProcessListResults(result, response, ex);
  }

  /** `setBasicMetadata`: echoes the request and stamps time and id. */
  method SetBasicMetadata(result: VerificarListasNegrasResult, request: ListRequest, ex: Camel.Exchange,
                          endDateTime: string)
    modifies result
    ensures result.View() == old(result.View()).(canal := request.canal, usuario := request.usuario,
              terminal := request.terminal, endDateTime := Some(endDateTime), version := request.version,
              transactionId := Camel.StringProperty(ex.properties, RequestUuidProperty))
  {
    result.SetCanal(request.canal);
    result.SetUsuario(request.usuario);
    result.SetTerminal(request.terminal);
    result.SetEndDateTime(Some(endDateTime));
    result.SetVersion(request.version);
    result.SetTransactionId(Camel.StringProperty(ex.properties, RequestUuidProperty));
  }

  /** `processListResults` with `processCoincidence`,
      `setNoCoincidenceResult` and `createListas`: the list results over a
      result object whose metadata is already set. */
  method ProcessListResults(result: VerificarListasNegrasResult, response: map<string, Option<ResponseDTO>>,
                            ex: Camel.Exchange)
    modifies result
    ensures var o := ListVerdict(response, Camel.StringProperty(ex.properties, NameProperty));
            result.View() == old(result.View()).(resultado := Some(o.resultado), mensaje := Some(o.mensaje),
                                                 concidencia := Some(o.concidencia),
                                                 listas := if o.listas.Some? then o.listas else old(result.listas))
  {
    var validation := ValidateResponses(response);
    result.SetConcidencia(Some(validation.HasCoincidence()));
    if validation.HasCoincidence() {
      result.SetTipo(Some("1"));
      result.SetMensaje(Some(BuildMessage(validation, Camel.StringProperty(ex.properties, NameProperty))));
      if validation.HasAnyMatch() {
        var lista: seq<Lista> := [];
        if validation.isDefraudador {
          lista := lista + [DefraudadoresLista];
        }
        if validation.isRestringido {
          lista := lista + [RestringidosLista];
        }
        assert lista == MatchedLists(validation.isDefraudador, validation.isRestringido);
        result.SetListas(Some(lista));
      }
    } else {
      result.SetTipo(Some("0"));
      result.SetMensaje(Some("Exito"));
    }
  }

  // ---- what the verdict says -------------------------------------------

  /** `Coincidencia` is true exactly when either list matched, and
      `Resultado` is "1" exactly then and "0" otherwise. */
  lemma CoincidenceIsEitherList(request: ListRequest, response: map<string, Option<ResponseDTO>>,
                                transactionId: Option<string>, name: Option<string>, endDateTime: string)
    ensures var v := Verdict(request, response, transactionId, name, endDateTime);
            var matched := IsMatch(Lookup(response, Defraudadores)) || IsMatch(Lookup(response, Restringido));
            && v.concidencia == Some(matched)
            && (v.resultado == Some("1") <==> matched)
            && (v.resultado == Some("0") <==> !matched)
            && (v.listas.Some? <==> matched)
  {
  }

  /** Without a match the reply says "0" and "Exito" and has no lists. */
  lemma NoMatchReply(request: ListRequest, response: map<string, Option<ResponseDTO>>,
                     transactionId: Option<string>, name: Option<string>, endDateTime: string)
    requires !IsMatch(Lookup(response, Defraudadores)) && !IsMatch(Lookup(response, Restringido))
    ensures var v := Verdict(request, response, transactionId, name, endDateTime);
            v.resultado == Some("0") && v.mensaje == Some("Exito") && v.listas.None?
            && v.concidencia == Some(false)
  {
  }

  /** With a match the message names the user and the matched lists, and
      the lists appear in the order defraudadores, restringidos, once each. */
  lemma MatchReply(request: ListRequest, response: map<string, Option<ResponseDTO>>,
                   transactionId: Option<string>, name: Option<string>, endDateTime: string)
    requires IsMatch(Lookup(response, Defraudadores)) || IsMatch(Lookup(response, Restringido))
    ensures var d := IsMatch(Lookup(response, Defraudadores));
            var r := IsMatch(Lookup(response, Restringido));
            var v := Verdict(request, response, transactionId, name, endDateTime);
            && v.mensaje == Some("El usuario " + Text(name) + " se encuentra en lista"
                                 + (if d && r then "s defraudador y restringido"
                                    else if d then " defraudador" else " restringido"))
            && v.listas.Some?
            && (DefraudadoresLista in v.listas.value <==> d)
            && (RestringidosLista in v.listas.value <==> r)
            && |v.listas.value| == (if d then 1 else 0) + (if r then 1 else 0)
            && (d && r ==> v.listas.value == [DefraudadoresLista, RestringidosLista])
  {
    var d := IsMatch(Lookup(response, Defraudadores));
    var r := IsMatch(Lookup(response, Restringido));
    var l := MatchedLists(d, r);
    assert DefraudadoresLista != RestringidosLista;
    if d && !r {
      assert l == [DefraudadoresLista];
    } else if !d && r {
      assert l == [RestringidosLista];
    }
  }

  /** The `externas` reply, and any other entry but the two lists, has no
      influence on the result. */
  lemma ExternasIgnored(request: ListRequest, response: map<string, Option<ResponseDTO>>, service: string,
                        dto: Option<ResponseDTO>, transactionId: Option<string>, name: Option<string>,
                        endDateTime: string)
    requires service != Defraudadores && service != Restringido
    ensures Verdict(request, response[service := dto], transactionId, name, endDateTime)
         == Verdict(request, response, transactionId, name, endDateTime)
  {
    assert Lookup(response[service := dto], Defraudadores) == Lookup(response, Defraudadores);
    assert Lookup(response[service := dto], Restringido) == Lookup(response, Restringido);
  }

  /** The metadata echoes the request, except that `FechaHora` is replaced
      by the clock reading; the request's identification is not echoed. */
  lemma MetadataEchoed(request: ListRequest, response: map<string, Option<ResponseDTO>>,
                       transactionId: Option<string>, name: Option<string>, endDateTime: string)
    ensures var v := Verdict(request, response, transactionId, name, endDateTime);
            && v.canal == request.canal && v.usuario == request.usuario && v.terminal == request.terminal
            && v.version == request.version && v.transactionId == transactionId
            && v.endDateTime == Some(endDateTime)
    ensures Verdict(request.(fechaHora := None, identificacion := None, tipoIdentificacion := None),
                    response, transactionId, name, endDateTime)
         == Verdict(request, response, transactionId, name, endDateTime)
  {
  }

  /** A reply with `result` false, null or absent does not count as a
      match, so only an explicit `TRUE` makes the verdict positive. */
  lemma OnlyTrueMatches(dto: ResponseDTO)
    requires dto.body.None? || dto.body.value.result != Some(true)
    ensures !IsMatch(Some(dto))
  {
  }
}
