/**
 * `SoapMessageHandler`: the empty-message test on an inbound SOAP message.
 * A message is empty when its first `Content-Length` value is the string
 * `"0"`, or when it carries no `InputStream` content.
 */
module SoapMessageHandler {
  import opened Values
  import opened SoapFaultBuilder

  /** The two things the handler inspects: the protocol header map (null
      when absent; a header without a value list is an absent key) and
      whether an `InputStream` content is present. */
  datatype SoapMessage = SoapMessage(protocolHeaders: Option<map<string, seq<string>>>, hasContent: bool)

  const BanreservasNs: string := "http://banreservas.com/integration"
  const ContentLength: string := "Content-Length"

  predicate HasEmptyContentLength(headers: Option<map<string, seq<string>>>) {
    && headers.Some?
    && ContentLength in headers.value
    && |headers.value[ContentLength]| > 0
    && headers.value[ContentLength][0] == "0"
  }

  predicate IsEmptyMessage(message: SoapMessage) {
    HasEmptyContentLength(message.protocolHeaders) || !message.hasContent
  }

  /** The fault for an empty message. */
  function EmptyMessageFault(): (f: Fault)
    ensures f.statusCode == 400 && f.faultCode == ClientFaultCode
  {
    CreateValidationFault("El mensaje SOAP está vacío o mal formado", "SOAP-ERR-001", BanreservasNs, 400)
  }

  /** `validateMessage`: throws the empty-message fault exactly when the
      message is empty and has no effect otherwise. */
  function ValidateMessage(message: SoapMessage): (r: Outcome<Fault>)
    ensures r.Fail? <==> IsEmptyMessage(message)
    ensures r.Fail? ==> r.error == EmptyMessageFault()
  {
    if IsEmptyMessage(message) then Fail(EmptyMessageFault()) else Pass
  }

  /** A first `Content-Length` of exactly `"0"` makes the message empty
      whatever its content. */
  lemma ZeroContentLengthIsEmpty(headers: map<string, seq<string>>, rest: seq<string>, hasContent: bool)
    requires headers[ContentLength := ["0"] + rest] == headers
    ensures ValidateMessage(SoapMessage(Some(headers), hasContent)).Fail?
  {
  }

  /** Without a header map, without `Content-Length`, or with an empty value
      list, only the missing content can make the message empty. */
  lemma HeadersAloneNeverEmpty(message: SoapMessage)
    requires || message.protocolHeaders.None?
             || ContentLength !in message.protocolHeaders.value
             || message.protocolHeaders.value[ContentLength] == []
    ensures ValidateMessage(message).Fail? <==> !message.hasContent
  {
  }

  /** Only the first value is compared, and by exact string equality: a
      first value other than `"0"` (such as `"00"` or `" 0"`) does not make
      the message empty, even if a later value is `"0"`. */
  lemma OnlyExactFirstZeroCounts(headers: map<string, seq<string>>, values: seq<string>)
    requires ContentLength in headers && headers[ContentLength] == values
    requires values != [] && values[0] != "0"
    ensures ValidateMessage(SoapMessage(Some(headers), true)).Pass?
  {
  }

  lemma NoContentIsEmpty(headers: Option<map<string, seq<string>>>)
    ensures ValidateMessage(SoapMessage(headers, false)).Fail?
  {
  }
}
