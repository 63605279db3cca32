/**
 * `IdentificationValidator`: the first processor of the request. It reads
 * the `request` entry of the unmarshalled SOAP body and checks the
 * identification number and its type before any backend is called.
 */
module IdentificationValidator {
  import opened Values
  import opened Dtos
  import opened Errors
  import Camel

  /** The identification types the service accepts. */
  const ValidIdTypes: set<string> := {"Cedula", "Pasaporte", "RNC", "GrupoEconomico"}

  const ValidationPassed: string := "validationPassed"

  const MissingRequestMessage: string := "Request inválido o ausente"
  const NullNumberMessage: string := "Identificación no puede ser null"
  const NullTypeMessage: string := "Tipo de identificación no puede ser null"
  const BlankMessage: string := "Identificación y tipo de identificación son requeridos"
  const NotAlphanumericMessage: string := "La identificación solo puede contener caracteres alfanuméricos"
  const UnknownTypePrefix: string := "Tipo de identificación no válido: "
  const ValidationPrefix: string := "Error en validación: "

  predicate IsAsciiAlphanumeric(c: char) {
    'A' <= c <= 'Z' || 'a' <= c <= 'z' || '0' <= c <= '9'
  }

  /** Whole-string match of `^[A-Za-z0-9]+$`. */
  predicate MatchesAlphanumeric(s: string) {
    |s| > 0 && forall i :: 0 <= i < |s| ==> IsAsciiAlphanumeric(s[i])
  }

  /** The acceptance rule stated on its own: both fields present, the
      trimmed number alphanumeric, and the type, as sent, one of the four
      accepted types. */
  predicate IsValidIdentification(req: ListRequest) {
    && req.identificacion.Some?
    && req.tipoIdentificacion.Some?
    && MatchesAlphanumeric(Trim(req.identificacion.value))
    && req.tipoIdentificacion.value in ValidIdTypes
  }

  /** `extractRequest`: a missing body or a null `request` entry is rejected
      with its own message; a `request` entry that is not a map, or an entry
      of it that is not a string, fails a cast. The error is the message of
      the exception. */
  function ExtractRequest(body: Option<map<string, Value>>): (r: Result<ListRequest, string>)
    ensures body.None? || Get(body.value, "request").Null? ==> r == Err(MissingRequestMessage)
    ensures r.Ok? <==> body.Some? && Get(body.value, "request").Obj?
                       && RequestFromMap(Get(body.value, "request").fields).Ok?
    ensures r.Ok? ==> r == Ok(RequestFromMap(Get(body.value, "request").fields).value)
    ensures r.Err? ==> r.error in {MissingRequestMessage, CastMessage}
  {
    if body.None? || Get(body.value, "request").Null? then Err(MissingRequestMessage)
    else
      match Get(body.value, "request")
      case Obj(fields) =>
        (match RequestFromMap(fields)
         case Ok(req) => Ok(req)
         case Err(_) => Err(CastMessage))
      case _ => Err(CastMessage)
  }

  /** `validateIdentification`, checks in source order; the error is the
      exception's message. */
  function ValidateIdentification(req: ListRequest): (r: Outcome<string>)
    ensures r.Pass? <==> IsValidIdentification(req)
    ensures req.identificacion.None? ==> r == Fail(NullNumberMessage)
    ensures req.identificacion.Some? && req.tipoIdentificacion.None? ==>
              r == Fail(NullTypeMessage)
    ensures req.identificacion.Some? && req.tipoIdentificacion.Some?
            && (Trim(req.identificacion.value) == [] || Trim(req.tipoIdentificacion.value) == []) ==>
              r == Fail(BlankMessage)
    ensures req.identificacion.Some? && req.tipoIdentificacion.Some?
            && Trim(req.identificacion.value) != [] && Trim(req.tipoIdentificacion.value) != []
            && !MatchesAlphanumeric(Trim(req.identificacion.value)) ==>
              r == Fail(NotAlphanumericMessage)
    ensures req.identificacion.Some? && req.tipoIdentificacion.Some?
            && Trim(req.tipoIdentificacion.value) != []
            && MatchesAlphanumeric(Trim(req.identificacion.value))
            && req.tipoIdentificacion.value !in ValidIdTypes ==>
              r == Fail(UnknownTypePrefix + req.tipoIdentificacion.value)
  {
    match (req.identificacion, req.tipoIdentificacion)
    case (None, _) => Fail(NullNumberMessage)
    case (Some(_), None) => Fail(NullTypeMessage)
    case (Some(id), Some(tipo)) =>
      AcceptedTypesUntrimmed(tipo);
      if Trim(id) == [] || Trim(tipo) == [] then
        Fail(BlankMessage)
      else if !MatchesAlphanumeric(Trim(id)) then
        Fail(NotAlphanumericMessage)
      else if tipo !in ValidIdTypes then
        Fail(UnknownTypePrefix + tipo)
      else Pass
  }

  /** The accepted types are not blank. */
  lemma AcceptedTypesUntrimmed(tipo: string)
    ensures tipo in ValidIdTypes ==> Trim(tipo) != []
  {
    if tipo in ValidIdTypes {
      assert !IsTrimmable(tipo[0]) && !IsTrimmable(tipo[|tipo| - 1]);
      TrimSurrounded([], tipo, []);
      assert [] + tipo + [] == tipo;
    }
  }

  /** What `process` throws for a given body: every failure comes out as an
      `IllegalArgumentException` carrying the inner message. */
  function ProcessOutcome(body: Option<map<string, Value>>): (r: Outcome<Exception>)
    ensures r.Pass? <==> ExtractRequest(body).Ok? && IsValidIdentification(ExtractRequest(body).value)
    ensures r.Fail? ==> r.error.IllegalArgumentException?
    ensures ExtractRequest(body).Err? ==>
              r == Fail(IllegalArgumentException(ValidationPrefix + ExtractRequest(body).error))
    ensures ExtractRequest(body).Ok? && ValidateIdentification(ExtractRequest(body).value).Fail? ==>
              r == Fail(IllegalArgumentException(ValidationPrefix
                                                 + ValidateIdentification(ExtractRequest(body).value).error))
  {
    match ExtractRequest(body)
    case Err(m) => Fail(IllegalArgumentException(ValidationPrefix + m))
    case Ok(req) =>
      match ValidateIdentification(req)
      case Fail(m) => Fail(IllegalArgumentException(ValidationPrefix + m))
      case Pass => Pass
  }

  /** `process`: on success only the `validationPassed` property is set; on
      failure the exchange is left as it was. */
  method Process(ex: Camel.Exchange) returns (thrown: Option<Exception>)
    modifies ex
    ensures thrown.None? <==> ProcessOutcome(Camel.AsValueMap(old(ex.body))).Pass?
    ensures thrown.Some? ==> thrown.value == ProcessOutcome(Camel.AsValueMap(old(ex.body))).error
    ensures thrown.None? ==> ex.properties == old(ex.properties)[ValidationPassed := Bool(true)]
    ensures thrown.Some? ==> ex.properties == old(ex.properties)
    ensures ex.body == old(ex.body) && ex.headers == old(ex.headers)
  {
    match ProcessOutcome(Camel.AsValueMap(ex.body))
    case Fail(e) =>
      thrown := Some(e);
    case Pass =>
      ex.properties := ex.properties[ValidationPassed := Bool(true)];
      thrown := None;
  }

  /** Blanks around an alphanumeric number are tolerated: the number is
      checked after `trim`. */
  lemma SurroundingBlanksTolerated(req: ListRequest, lead: string, id: string, trail: string)
    requires MatchesAlphanumeric(id) && AllTrimmable(lead) && AllTrimmable(trail)
    requires req.identificacion == Some(lead + id + trail)
    requires req.tipoIdentificacion.Some? && req.tipoIdentificacion.value in ValidIdTypes
    ensures ValidateIdentification(req) == Pass
  {
    TrimSurrounded(lead, id, trail);
  }

  /** The type, on the other hand, is looked up as sent: a blank before an
      otherwise accepted type is rejected, naming the padded type. */
  lemma PaddedTypeRejected(req: ListRequest, tipo: string)
    requires tipo in ValidIdTypes
    requires req.identificacion.Some? && MatchesAlphanumeric(Trim(req.identificacion.value))
    requires req.tipoIdentificacion == Some(" " + tipo)
    ensures ValidateIdentification(req) == Fail(UnknownTypePrefix + (" " + tipo))
  {
    var padded := " " + tipo;
    assert Trim(padded) != [] by {
      assert !IsTrimmable(tipo[0]) && !IsTrimmable(tipo[|tipo| - 1]);
      TrimSurrounded(" ", tipo, "");
      assert " " + tipo + "" == padded;
    }
    assert padded !in ValidIdTypes by {
      assert padded[0] == ' ';
      BlankStartNotAccepted(padded);
    }
  }

  /** No accepted type starts with a blank. */
  lemma BlankStartNotAccepted(t: string)
    requires t != [] && t[0] == ' '
    ensures t !in ValidIdTypes
  {
  }

  /** A number with an inner character outside `[A-Za-z0-9]` is rejected
      even when the type is valid. */
  lemma InnerSymbolRejected(req: ListRequest, left: string, c: char, right: string)
    requires MatchesAlphanumeric(left) && MatchesAlphanumeric(right) && !IsAsciiAlphanumeric(c)
    requires req.identificacion == Some(left + [c] + right)
    requires req.tipoIdentificacion.Some? && req.tipoIdentificacion.value in ValidIdTypes
    ensures ValidateIdentification(req) == Fail(NotAlphanumericMessage)
  {
    assert IsAsciiAlphanumeric(left[0]) && IsAsciiAlphanumeric(right[|right| - 1]);
    InnerSymbolString(left, c, right);
    AcceptedTypesUntrimmed(req.tipoIdentificacion.value);
  }

  /** The number of `InnerSymbolRejected` survives `trim` and does not
      match the pattern. */
  lemma InnerSymbolString(left: string, c: char, right: string)
    requires left != [] && right != [] && IsAsciiAlphanumeric(left[0]) && IsAsciiAlphanumeric(right[|right| - 1])
    requires !IsAsciiAlphanumeric(c)
    ensures var s := left + [c] + right;
            Trim(s) == s && s != [] && !MatchesAlphanumeric(Trim(s))
  {
    var s := left + [c] + right;
    assert s[0] == left[0] && s[|s| - 1] == right[|right| - 1];
    UntrimmedEnds(s);
    assert s[|left|] == c;
  }

  /** A string that starts and ends with an alphanumeric character is left
      as it is by `trim`. */
  lemma UntrimmedEnds(s: string)
    requires s != [] && IsAsciiAlphanumeric(s[0]) && IsAsciiAlphanumeric(s[|s| - 1])
    ensures Trim(s) == s
  {
    TrimSurrounded([], s, []);
    assert [] + s + [] == s;
  }
}
