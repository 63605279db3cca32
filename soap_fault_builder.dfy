/**
 * `SoapFaultBuilder`: the SOAP faults the service returns. Only three things
 * survive into a fault: the message, the HTTP status code and the fault code,
 * which is always the SOAP 1.1 `Client` code (section 4.4.1 of the W3C SOAP
 * 1.1 note). The error code and namespace a caller passes are discarded.
 */
module SoapFaultBuilder {

  /** A qualified XML name: namespace URI, local part and prefix. */
  datatype QName = QName(namespaceUri: string, localPart: string, prefix: string)

  /** The part of a CXF `Fault` the service sets: its message (taken from the
      wrapped exception), its HTTP status code and its fault code. */
  datatype Fault = Fault(message: string, statusCode: int, faultCode: QName)

  const SoapEnvelopeNs: string := "http://schemas.xmlsoap.org/soap/envelope/"

  /** `soap:Client` in the SOAP 1.1 envelope namespace. */
  const ClientFaultCode: QName := QName(SoapEnvelopeNs, "Client", "soap")

  /** The main path of `createValidationFault`. */
  function CreateValidationFault(message: string, errorCode: string, namespace: string, statusCode: int): (f: Fault)
    ensures f.message == message
    ensures f.statusCode == statusCode
    ensures f.faultCode == ClientFaultCode
  {
    Fault(message, statusCode, ClientFaultCode)
  }

  /** The fallback taken when building the (unused) XML document fails. */
  function CreateBasicFault(message: string, statusCode: int): (f: Fault)
    ensures f.message == message
    ensures f.statusCode == statusCode
    ensures f.faultCode == ClientFaultCode
  {
    Fault(message, statusCode, ClientFaultCode)
  }

  /** Neither the error code nor the namespace reaches the fault, and the
      fallback path builds the same fault as the main path. So which of the
      two paths runs does not matter to any caller. */
  lemma FaultIgnoresCodeAndNamespace(message: string, statusCode: int,
                                     errorCode1: string, namespace1: string,
                                     errorCode2: string, namespace2: string)
    ensures CreateValidationFault(message, errorCode1, namespace1, statusCode)
         == CreateValidationFault(message, errorCode2, namespace2, statusCode)
         == CreateBasicFault(message, statusCode)
  {
  }
}
