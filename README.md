# Blacklist verification service (ms-siebel-blacklist), modelled in Dafny

The service answers the SOAP operation `VerificarListasNegras`. A request
names a person by identification number and type. The route does these steps
in order:

1. It checks the identification (`IdentificationValidator`).
2. It turns the request body into a two-entry map (`ResponseTransformer`).
3. It calls three backend blacklist services (`defraudadores`,
   `restringido`, `externas`) in a parallel multicast.
4. It folds their replies into one map with a single shared
   `ResponseAggregationStrategy` object.
5. It maps the replies to typed DTOs and accepts them only if every one
   carries code 200 (`FinalResponseProcessor`).
6. It builds the `VerificarListasNegrasResult` reply (`SoapMetadataBuilder`,
   `SoapResponseProcessor`).

Any exception ends the request in one of the handlers of
`ErrorHandlerConfig`, which turn it into a SOAP fault (`SoapFaultBuilder`).
`SoapMessageHandler` holds the empty-message test for inbound SOAP messages.

How the model is built:

- **Values.** Untyped JSON/XML documents are `Values.Value`. Java's `null`
  is `Null`, and `Map.get` on an absent key gives `Null`.
- **Pure logic.** Each processor's logic is a pure function that returns
  either the new body or the exception thrown.
- **Mutable objects.** `Camel.Exchange`, the strategy object (with its
  `processedServices` set) and `VerificarListasNegrasResult` are classes.
  Their methods are proved to change them exactly as those functions say.
- **The route.** `Route.RouteSpec` composes the request path.
  `Route.HandleRequest` runs the imperative pipeline and is proved to agree
  with it.

Module by source file:

| module | file |
|---|---|
| `SoapFaultBuilder` | `SoapFaultBuilder.java` |
| `SoapMessageHandler` | `SoapMessageHandler.java` |
| `Validation` | `ValidationResult.java` |
| `IdentificationValidator` | `IdentificationValidator.java` |
| `ResponseTransformer` | `ResponseTransformer.java` |
| `Services`, `Aggregation` | `ResponseAggregationStrategy.java` |
| `FinalResponse` | `FinalResponseProcessor.java` |
| `ListResult` | `VerificarListasNegrasResult.java` |
| `MetadataBuilder` | `SoapMetadataBuilder.java` |
| `SoapResponse` | `SoapResponseProcessor.java` |
| `ErrorHandlerConfig` | `ErrorHandlerConfig.java` |
| `Route` | the request path of `BlackListVerificationRoute.java` |

`Values`, `Errors`, `Camel` and `Dtos` hold the shared types: documents,
exceptions, exchanges and DTOs.

In four places the behaviour a caller of the service would expect differs
from what the code does. The model follows the code:

- **The verdict uses two lists, not three.** A caller would expect the
  verdict to draw on all three lists. The code reads only the
  `defraudadores` and `restringido` replies, and the `externas` reply has no
  influence (`MetadataBuilder.ExternasIgnored`).
- **The match message is fixed to those two lists.** A caller would expect
  the message to join up to three list names. The code's message names
  `defraudador` and/or `restringido` only.
- **State outlives a request.** A caller would expect each request to start
  afresh. The code keeps `processedServices` in the one strategy object the
  route creates. It clears the set only after an aggregation that reaches
  three names and finds all three services.
  - The multicast does not stream, so it hands each request's replies to
    the strategy in the order of its `to` list. Requests served one at a
    time then leave at most `defraudadores` and `restringido` behind, and a
    request with three acceptable replies still succeeds
    (`Aggregation.ToListOrderKeepsSetClean`,
    `Aggregation.SequentialRequestsKeepSetClean`).
  - Requests served at the same time share the set. Their calls to
    `aggregate` interleave, and one request can empty the set before
    another's last reply arrives. That reply's name is left behind
    (`Aggregation.InterleavedRequestsLeaveStaleName`). The next request
    then fails and fills the set
    (`Aggregation.StaleNameFailsNextRequest`). After that every valid
    request is refused (`Aggregation.FullSetFailsEveryRun`,
    `Route.FullSetAnswersEveryRequestWithFault`).
- **Only code 200 passes the final check.** A caller would expect the five
  backend codes the aggregation accepts to be accepted. The final
  processor accepts only 200
  (`FinalResponse.NonSuccessCodeRejectedAtTheEnd`).

## Model

All source paths below are under `src/main/java/com/banreservas/integration/`.

| member | source | states |
|---|---|---|
| SoapFaultBuilder.CreateValidationFault | src/main/java/com/banreservas/integration/exception/SoapFaultBuilder.java:35-48 | the fault carries exactly the given message and status code, and its fault code is always `soap:Client` |
| SoapFaultBuilder.CreateBasicFault | src/main/java/com/banreservas/integration/exception/SoapFaultBuilder.java:59-64 | the fallback fault carries the message, the status and `soap:Client` |
| SoapFaultBuilder.FaultIgnoresCodeAndNamespace | src/main/java/com/banreservas/integration/exception/SoapFaultBuilder.java:35-64 | the error code and namespace never reach the fault, and the fallback path builds the same fault as the main path |
| SoapMessageHandler.EmptyMessageFault | src/main/java/com/banreservas/integration/exception/java/SoapMessageHandler.java:78-85 | the empty-message fault has status 400 and code `soap:Client` |
| SoapMessageHandler.ValidateMessage | src/main/java/com/banreservas/integration/exception/java/SoapMessageHandler.java:30-34 | fails exactly when the message is empty (first `Content-Length` value `"0"`, or no content), and then with the empty-message fault |
| SoapMessageHandler.ZeroContentLengthIsEmpty | src/main/java/com/banreservas/integration/exception/java/SoapMessageHandler.java:62-70 | a first `Content-Length` value of `"0"` rejects the message whatever its content |
| SoapMessageHandler.HeadersAloneNeverEmpty | src/main/java/com/banreservas/integration/exception/java/SoapMessageHandler.java:43-53 | with no header map, no `Content-Length` header or an empty value list, the message is rejected exactly when it has no content |
| SoapMessageHandler.OnlyExactFirstZeroCounts | src/main/java/com/banreservas/integration/exception/java/SoapMessageHandler.java:62-70 | a message with content passes when the first `Content-Length` value is not exactly `"0"`, whatever later values say |
| SoapMessageHandler.NoContentIsEmpty | src/main/java/com/banreservas/integration/exception/java/SoapMessageHandler.java:52 | a message without content is always rejected |
| Validation.ForLists | src/main/java/com/banreservas/integration/model/ValidationResult.java:34-39 | the list constructor is valid with message "OK" and keeps both match flags |
| Validation.ForResponse | src/main/java/com/banreservas/integration/model/ValidationResult.java:42-47 | the response constructor keeps validity and message and reports no match |
| Validation.FullConstructorStores | src/main/java/com/banreservas/integration/model/ValidationResult.java:50-55 | the four-argument constructor stores its arguments |
| Validation.CoincidenceIsAnyMatch | src/main/java/com/banreservas/integration/model/ValidationResult.java:73-79 | `hasCoincidence` and `hasAnyMatch` agree, and both mean "either flag set" |
| Validation.ResponseCheckHasNoCoincidence | src/main/java/com/banreservas/integration/model/ValidationResult.java:42-47 | a response-check result never reports a coincidence |
| Values.TrimSurrounded | src/main/java/com/banreservas/integration/processor/IdentificationValidator.java:108-113 | `trim` removes exactly the blanks around a core that neither starts nor ends with a blank |
| Values.ParseDecimalString | src/main/java/com/banreservas/integration/processor/ResponseAggregationStrategy.java:129 | `parseInt` of a number's decimal text gives the number back if it fits in 32 bits, and fails otherwise |
| Dtos.RequestFromMap | src/main/java/com/banreservas/integration/processor/SoapResponseProcessor.java:54-62 | the request is built exactly when all seven entries are strings or null, and each field is the entry under its key |
| IdentificationValidator.ExtractRequest | src/main/java/com/banreservas/integration/processor/IdentificationValidator.java:73-92 | a missing body or a null `request` gives "Request inválido o ausente"; otherwise the request is read from the `request` map, and a non-map or non-string entry fails the cast |
| IdentificationValidator.ValidateIdentification | src/main/java/com/banreservas/integration/processor/IdentificationValidator.java:102-122 | passes exactly for the valid identifications (both present, trimmed number alphanumeric, type one of the four as sent); a null number, a null type, a blank field, a non-alphanumeric number and an unknown type each get their own message, the earlier check deciding |
| IdentificationValidator.ProcessOutcome | src/main/java/com/banreservas/integration/processor/IdentificationValidator.java:52-63 | passes exactly for an extractable, valid request; every failure is an `IllegalArgumentException` with the "Error en validación: " prefix and the inner message |
| IdentificationValidator.Process | src/main/java/com/banreservas/integration/processor/IdentificationValidator.java:52-63 | on success sets only `validationPassed = true`; on failure throws and leaves the exchange unchanged |
| IdentificationValidator.SurroundingBlanksTolerated | src/main/java/com/banreservas/integration/processor/IdentificationValidator.java:108-116 | blanks around an alphanumeric number are accepted |
| IdentificationValidator.PaddedTypeRejected | src/main/java/com/banreservas/integration/processor/IdentificationValidator.java:118-121 | a valid type with a leading blank is rejected, and the message quotes the padded type |
| IdentificationValidator.InnerSymbolRejected | src/main/java/com/banreservas/integration/processor/IdentificationValidator.java:113-116 | a number containing a non-alphanumeric character is rejected with the alphanumeric message |
| ResponseTransformer.ValidateRequestFields | src/main/java/com/banreservas/integration/processor/ResponseTransformer.java:84-96 | passes exactly when both keys are present with non-null values; a missing key is reported before a null value |
| ResponseTransformer.TransformResponse | src/main/java/com/banreservas/integration/processor/ResponseTransformer.java:62-75 | null body and null request get their own messages; on success the result has exactly the two keys, each holding the request's value |
| ResponseTransformer.Process | src/main/java/com/banreservas/integration/processor/ResponseTransformer.java:41-51 | on success the body becomes the two-entry map; on failure the body is kept and an `IllegalStateException` with the transformation prefix is thrown |
| ResponseTransformer.ValidatedRequestTransforms | src/main/java/com/banreservas/integration/processor/ResponseTransformer.java:62-75 | every body the validator accepts transforms into the validated number and type |
| ResponseTransformer.StringEntriesTransform | src/main/java/com/banreservas/integration/processor/ResponseTransformer.java:62-75 | a request whose two identification entries are strings transforms into the map holding exactly those two strings under the backend keys |
| ResponseTransformer.MissingKeyReportedFirst | src/main/java/com/banreservas/integration/processor/ResponseTransformer.java:84-89 | a request without the type key is rejected for the missing key |
| Services.FirstMissing | src/main/java/com/banreservas/integration/processor/ResponseAggregationStrategy.java:99-110 | nothing is missing exactly when every name is present; otherwise the result is the first absent name in order |
| Services.FirstMissingRequired | src/main/java/com/banreservas/integration/processor/FinalResponseProcessor.java:78-91 | over the three services: nothing is missing exactly when all three are present, and a reported name is a required one that is absent |
| Aggregation.ParseCode | src/main/java/com/banreservas/integration/processor/ResponseAggregationStrategy.java:129 | a parsed code is always a 32-bit integer |
| Aggregation.ParseNumericCode | src/main/java/com/banreservas/integration/processor/ResponseAggregationStrategy.java:129 | a numeric code parses to itself when it fits in 32 bits, and fails otherwise |
| Aggregation.ValidateResponse | src/main/java/com/banreservas/integration/processor/ResponseAggregationStrategy.java:112-135 | valid exactly for acceptable replies (a header whose code is one of 200/400/404/500/503); rejections name the service; a non-map header or an unparsable code escapes as an exception; never reports a match |
| Aggregation.Step | src/main/java/com/banreservas/integration/processor/ResponseAggregationStrategy.java:21-97 | a reply that is not acceptable fails and changes nothing; a success stores the reply under its service name; the set only grows with acceptable named replies; the set is emptied only after a successful three-service check; on an aggregation exception the set is unchanged; a rejected reply raises an `AggregationValidationException` naming the service (with "inicial" on the first call), and a non-map header or unparsable code raises an `AggregationException` with the unexpected-error message and that cause |
| Aggregation.RunFromOkCovers | src/main/java/com/banreservas/integration/routes/BlackListVerificationRoute.java:79-86 | a successful multicast stored every reply under its name, and every reply was acceptable; earlier entries are kept |
| Aggregation.RunStoresOnlyAcceptable | src/main/java/com/banreservas/integration/processor/ResponseAggregationStrategy.java:44-58 | the aggregate of a successful multicast holds only validated replies |
| Aggregation.StepStores | src/main/java/com/banreservas/integration/processor/ResponseAggregationStrategy.java:53-58 | an acceptable reply whose call does not reach three names is added to the aggregate and the set |
| Aggregation.StepChecks | src/main/java/com/banreservas/integration/processor/ResponseAggregationStrategy.java:60-65 | an acceptable reply on a later call that brings the set to three names triggers the required-service check: it fails naming the first missing service, or succeeds and empties the set |
| Aggregation.CompleteRunSucceeds | src/main/java/com/banreservas/integration/processor/ResponseAggregationStrategy.java:21-110 | from an empty set, three acceptable replies from the three services, in any order, aggregate to the map of all three, and the set is empty again |
| Aggregation.FullSetFailsEveryRun | src/main/java/com/banreservas/integration/processor/ResponseAggregationStrategy.java:55-65 | once the set holds all three names, any multicast whose first two replies are acceptable and from two services fails at the second one naming the third, and the set stays full |
| Aggregation.ToListOrderKeepsSetClean | src/main/java/com/banreservas/integration/routes/BlackListVerificationRoute.java:81-86 | a multicast in `to`-list order, starting from a set holding at most `defraudadores` and `restringido`, leaves at most those two names whatever its replies; with three acceptable replies it returns all three and empties the set |
| Aggregation.SequentialRequestsKeepSetClean | src/main/java/com/banreservas/integration/processor/ResponseAggregationStrategy.java:53-65 | however many requests the strategy serves one at a time, in `to`-list order, the set never holds more than the first two names |
| Aggregation.InterleavedRequestsLeaveStaleName | src/main/java/com/banreservas/integration/processor/ResponseAggregationStrategy.java:53-65 | two concurrent requests whose `aggregate` calls alternate both succeed with all three replies, but the first to finish empties the set before the other's last reply, whose name is left in the set |
| Aggregation.StaleNameFailsNextRequest | src/main/java/com/banreservas/integration/processor/ResponseAggregationStrategy.java:53-65 | with `externas` left in the set, the next request in `to`-list order with acceptable replies fails at its second reply, reporting `externas` missing, and leaves all three names in the set |
| Aggregation.ValidateAllResponses | src/main/java/com/banreservas/integration/processor/ResponseAggregationStrategy.java:99-110 | the loop reports the first required service absent from the aggregate |
| Aggregation.ResponseAggregationStrategy.constructor | src/main/java/com/banreservas/integration/processor/ResponseAggregationStrategy.java:18 | a new strategy starts with an empty set |
| Aggregation.ResponseAggregationStrategy.Aggregate | src/main/java/com/banreservas/integration/processor/ResponseAggregationStrategy.java:21-76 | the set, the returned exchange or exception and the written body are those of `Step`; properties and headers are unchanged |
| FinalResponse.AsInt | src/main/java/com/banreservas/integration/processor/FinalResponseProcessor.java:121 | the `(Integer)` cast succeeds exactly for a 32-bit number and yields it |
| FinalResponse.AsBoolean | src/main/java/com/banreservas/integration/processor/FinalResponseProcessor.java:130 | the `(Boolean)` cast succeeds exactly for null or a boolean |
| FinalResponse.MapHeader | src/main/java/com/banreservas/integration/processor/FinalResponseProcessor.java:118-124 | an absent header stays absent; a map header maps exactly when the code is an integer and the message a string, and it keeps the code |
| FinalResponse.MapBody | src/main/java/com/banreservas/integration/processor/FinalResponseProcessor.java:127-132 | an absent body stays absent; a map body maps exactly when `result` is null or a boolean |
| FinalResponse.MapToDto | src/main/java/com/banreservas/integration/processor/FinalResponseProcessor.java:101-139 | null maps to null; a non-map gives "El objeto recibido no es un Map."; a map succeeds exactly when header and body map, and otherwise gives the mapping error; the DTO holds the mapped parts |
| FinalResponse.MapAllMeaning | src/main/java/com/banreservas/integration/processor/FinalResponseProcessor.java:52-55 | succeeds exactly when every service's reply maps; its keys are exactly the services, each with its DTO; a failure is the error of a reply that failed |
| FinalResponse.FinalOutcome | src/main/java/com/banreservas/integration/processor/FinalResponseProcessor.java:43-70 | succeeds exactly for a map in which all three required replies map to DTOs with code 200, and then yields exactly three valid DTOs; a missing service gives the 400 missing-service fault |
| FinalResponse.ValidateRequiredResponses | src/main/java/com/banreservas/integration/processor/FinalResponseProcessor.java:78-91 | no fault exactly when all three services are present; otherwise the fault for the first missing one |
| FinalResponse.FirstMissingAt | src/main/java/com/banreservas/integration/processor/FinalResponseProcessor.java:79-80 | the first missing name is the one at the first index not present |
| FinalResponse.Process | src/main/java/com/banreservas/integration/processor/FinalResponseProcessor.java:43-70 | the body becomes the typed replies exactly when `FinalOutcome` succeeds; otherwise that exception is thrown and the body is kept |
| FinalResponse.MapRequired | src/main/java/com/banreservas/integration/processor/FinalResponseProcessor.java:52-55 | the mapping loop over the three required services yields what the fold `MapAll` yields |
| FinalResponse.MappedIffConfirmed | src/main/java/com/banreservas/integration/processor/FinalResponseProcessor.java:52-62 | with all three replies present, mapping them all to DTOs with code 200 succeeds exactly when every required reply is confirmed, and then yields one DTO per required service |
| FinalResponse.MapAllStopsAt | src/main/java/com/banreservas/integration/processor/FinalResponseProcessor.java:53-55 | the mapping loop ends with the first reply that fails to map |
| FinalResponse.ConfirmedIsAcceptable | src/main/java/com/banreservas/integration/processor/FinalResponseProcessor.java:159-170 | a reply the final check confirms was also accepted by the aggregation |
| FinalResponse.NonSuccessCodeRejectedAtTheEnd | src/main/java/com/banreservas/integration/processor/FinalResponseProcessor.java:58-66 | a reply with code 400, 404, 500 or 503 passes the aggregation but makes the final check fail with the 400 validation fault |
| FinalResponse.TextCodeAcceptedThenRefused | src/main/java/com/banreservas/integration/processor/FinalResponseProcessor.java:121 | a code sent as the text "200" passes the aggregation but fails the DTO mapping |
| ListResult.VerificarListasNegrasResult.Empty | src/main/java/com/banreservas/integration/model/responseSoap/VerificarListasNegrasResult.java:74-75 | a new result has every field null |
| ListResult.VerificarListasNegrasResult.constructor | src/main/java/com/banreservas/integration/model/responseSoap/VerificarListasNegrasResult.java:77-89 | the ten-argument constructor stores its arguments, with `tipo` stored as `resultado` |
| ListResult.VerificarListasNegrasResult.GetTipo | src/main/java/com/banreservas/integration/model/responseSoap/VerificarListasNegrasResult.java:140-142 | `getTipo` and `getResultado` always agree |
| ListResult.VerificarListasNegrasResult.SetCanal | src/main/java/com/banreservas/integration/model/responseSoap/VerificarListasNegrasResult.java:95-97 | changes `canal` only |
| ListResult.VerificarListasNegrasResult.SetUsuario | src/main/java/com/banreservas/integration/model/responseSoap/VerificarListasNegrasResult.java:103-105 | changes `usuario` only |
| ListResult.VerificarListasNegrasResult.SetTerminal | src/main/java/com/banreservas/integration/model/responseSoap/VerificarListasNegrasResult.java:111-113 | changes `terminal` only |
| ListResult.VerificarListasNegrasResult.SetEndDateTime | src/main/java/com/banreservas/integration/model/responseSoap/VerificarListasNegrasResult.java:119-121 | changes `endDateTime` only |
| ListResult.VerificarListasNegrasResult.SetVersion | src/main/java/com/banreservas/integration/model/responseSoap/VerificarListasNegrasResult.java:127-129 | changes `version` only |
| ListResult.VerificarListasNegrasResult.SetTransactionId | src/main/java/com/banreservas/integration/model/responseSoap/VerificarListasNegrasResult.java:136-138 | changes `transactionId` only |
| ListResult.VerificarListasNegrasResult.SetTipo | src/main/java/com/banreservas/integration/model/responseSoap/VerificarListasNegrasResult.java:144-146 | writes `resultado`, so both getters return the new value |
| ListResult.VerificarListasNegrasResult.SetResultado | src/main/java/com/banreservas/integration/model/responseSoap/VerificarListasNegrasResult.java:168-170 | writes `resultado`, so both getters return the new value |
| ListResult.VerificarListasNegrasResult.SetMensaje | src/main/java/com/banreservas/integration/model/responseSoap/VerificarListasNegrasResult.java:152-154 | changes `mensaje` only |
| ListResult.VerificarListasNegrasResult.SetConcidencia | src/main/java/com/banreservas/integration/model/responseSoap/VerificarListasNegrasResult.java:160-162 | changes `concidencia` only |
| ListResult.VerificarListasNegrasResult.SetListas | src/main/java/com/banreservas/integration/model/responseSoap/VerificarListasNegrasResult.java:176-178 | changes `listas` only |
| MetadataBuilder.ValidateResponses | src/main/java/com/banreservas/integration/processor/SoapMetadataBuilder.java:95-99 | the defraudador and restringido flags are set exactly when that list's reply says TRUE |
| MetadataBuilder.CreateVerificarListasNegrasResult | src/main/java/com/banreservas/integration/processor/SoapMetadataBuilder.java:37-47 | the new result object is the verdict for the request, the replies, the `RequestUUID` and `name` properties and the clock reading |
| MetadataBuilder.SetBasicMetadata | src/main/java/com/banreservas/integration/processor/SoapMetadataBuilder.java:57-66 | sets the echoed request fields, the clock reading and the transaction id, and nothing else |
| MetadataBuilder.ProcessListResults | src/main/java/com/banreservas/integration/processor/SoapMetadataBuilder.java:76-86 | sets result, message, coincidence and (on a match) the lists as the list verdict says, and nothing else |
| MetadataBuilder.CoincidenceIsEitherList | src/main/java/com/banreservas/integration/processor/SoapMetadataBuilder.java:76-86 | coincidence, result "1" and the presence of lists each hold exactly when either list matched; result "0" exactly when neither did |
| MetadataBuilder.NoMatchReply | src/main/java/com/banreservas/integration/processor/SoapMetadataBuilder.java:179-182 | without a match the reply is "0", "Exito", no coincidence and no lists |
| MetadataBuilder.MatchReply | src/main/java/com/banreservas/integration/processor/SoapMetadataBuilder.java:122-171 | with a match the message names the user and the matched lists; each list appears exactly when it matched, once, defraudadores first |
| MetadataBuilder.ExternasIgnored | src/main/java/com/banreservas/integration/processor/SoapMetadataBuilder.java:95-99 | changing any reply other than the two lists leaves the result unchanged |
| MetadataBuilder.MetadataEchoed | src/main/java/com/banreservas/integration/processor/SoapMetadataBuilder.java:57-66 | the result echoes channel, user, terminal, version and transaction id, and stamps the clock reading; the request's date and identification do not affect it |
| MetadataBuilder.OnlyTrueMatches | src/main/java/com/banreservas/integration/processor/SoapMetadataBuilder.java:108-112 | a reply whose result is false, null or absent is not a match |
| SoapResponse.TypedReplies | src/main/java/com/banreservas/integration/processor/SoapResponseProcessor.java:43-46 | the typed replies pass unchanged; the body reads as null exactly when it is neither the typed replies nor a map |
| SoapResponse.RebuildRequest | src/main/java/com/banreservas/integration/processor/SoapResponseProcessor.java:48-62 | succeeds exactly when the property holds a `request` map of string entries, and then yields that request; a missing property or null `request` gives the missing-property message, and anything else fails the cast |
| SoapResponse.ResponseOutcome | src/main/java/com/banreservas/integration/processor/SoapResponseProcessor.java:42-73 | a null body gives the null-body message; on success the result is the verdict for the rebuilt request and the typed replies |
| SoapResponse.Process | src/main/java/com/banreservas/integration/processor/SoapResponseProcessor.java:42-73 | on success the body becomes the marshalled result; on failure the exception is thrown and the body is kept |
| SoapResponse.ReplyEchoesRequest | src/main/java/com/banreservas/integration/processor/SoapResponseProcessor.java:54-69 | the reply echoes the channel, user, terminal and version of the rebuilt request, and the clock reading |
| ErrorHandlerConfig.FaultSpecFor | src/main/java/com/banreservas/integration/exception/routes/ErrorHandlerConfig.java:22-101 | aggregation-validation errors get 400 and aggregation errors 500, both keeping the message; illegal-argument errors (including number-format ones) get 400 with the message; connection errors get 503; everything else gets 500 |
| ErrorHandlerConfig.Handle | src/main/java/com/banreservas/integration/exception/routes/ErrorHandlerConfig.java:22-101 | the fault is built from the handler's arguments; the two aggregation handlers reply with the fault and an HTTP code equal to its status, and every other handler throws it |
| ErrorHandlerConfig.EveryExceptionBecomesOneFault | src/main/java/com/banreservas/integration/exception/routes/ErrorHandlerConfig.java:22-101 | every exception becomes one `soap:Client` fault with status 400, 500 or 503, whose message is the exception's own or carries its handler's prefix |
| ErrorHandlerConfig.ThrownFaultBecomesInternalError | src/main/java/com/banreservas/integration/exception/routes/ErrorHandlerConfig.java:88-101 | a fault thrown by a processor reaches the caller as a 500 internal-error fault |
| ErrorHandlerConfig.ApplyHandler | src/main/java/com/banreservas/integration/exception/routes/ErrorHandlerConfig.java:22-101 | an aggregation handler sets the HTTP response code header and the fault body and swallows the exception; any other handler leaves the exchange alone and throws the fault |
| ErrorHandlerConfig.AttemptsMade | src/main/java/com/banreservas/integration/exception/routes/ErrorHandlerConfig.java:17-20 | a step runs between once and the redelivery bound plus one times, and is retried only after a failed attempt |
| ErrorHandlerConfig.AtMostThreeAttempts | src/main/java/com/banreservas/integration/exception/routes/ErrorHandlerConfig.java:17-20 | with two redeliveries a step runs at most three times |
| Route.Multicast | src/main/java/com/banreservas/integration/routes/BlackListVerificationRoute.java:79-86 | the strategy's set and the outcome are those of the fold `Run`; on success a fresh exchange holds the aggregate |
| Route.AggregateReply | src/main/java/com/banreservas/integration/routes/BlackListVerificationRoute.java:93-103 | a sub-exchange with the reply and its service name is aggregated so that the strategy and the returned exchange advance the fold `RunFrom` by that reply, or stop it with the exception thrown |
| Route.Prepare | src/main/java/com/banreservas/integration/routes/BlackListVerificationRoute.java:70-76 | the validation and transformation pass or throw as `Prepared` says; on success `validationPassed` is set |
| Route.Backend | src/main/java/com/banreservas/integration/routes/BlackListVerificationRoute.java:62-90 | multicast, final check and SOAP reply end as `BackendSpec` says, with the strategy's set updated |
| Route.HandleRequest | src/main/java/com/banreservas/integration/routes/BlackListVerificationRoute.java:40-90 | the request ends as `RouteSpec` says: the marshalled reply, a fault in the body with its HTTP code, or a thrown fault, as the handler for the exception decides |
| Route.VerdictNeedsThreeConfirmations | src/main/java/com/banreservas/integration/routes/BlackListVerificationRoute.java:45-90 | a verdict is produced only if the request was valid, every reply was acceptable and all three services confirmed with code 200 |
| Route.InvalidRequestLeavesStrategyAlone | src/main/java/com/banreservas/integration/routes/BlackListVerificationRoute.java:70-76 | an invalid request ends in the validator's exception, a 400 fault, and leaves the strategy's set untouched |
| Route.FullSetAnswersEveryRequestWithFault | src/main/java/com/banreservas/integration/routes/BlackListVerificationRoute.java:79-86 | once the set is full, a valid request whose first two replies come from two services gets the 400 missing-service fault, and the set stays full |

## Left out

- The multicast's replies are the `replies` parameter, aggregated one
  after another in the order given. The route hands them over in its `to`
  list's order. `Route.Multicast` and `Route.HandleRequest` accept any
  order, which includes that one. The to-list-order facts are stated on
  `Aggregation.ToListOrder`.
- Concurrent requests sharing one strategy are modelled only as
  interleaved `aggregate` calls (`Aggregation.InterleavedRequestsLeaveStaleName`).
  `Route.HandleRequest` serves one request at a time. A thread switch
  inside one `aggregate` call is not modelled.
- The HTTP calls of the backend routes, their JSON marshalling and their
  own `doTry`/`doCatch` are not modelled. The sub-routes catch every
  exception, so a `ConnectException` never reaches the route's handler.
  The replies are parameters.
- The route's own property and header steps are not modelled: UUID
  generation, `setProperty`/`setHeader` with the simple language, and the
  `name` property. Their values arrive in the `properties` parameter.
- Logging and audit logging are not modelled. The XML document that
  `createValidationFault` builds and never uses is not modelled.
- JAXB marshalling is the `marshal` parameter and the clock is the
  `endDateTime` parameter. A marshalling failure is not modelled.
- The multicast copies only the aggregated body back to the route's
  exchange. Other properties and headers set by the sub-exchanges are not
  modelled.
- Camel's choice of exception handler is not modelled fully. The model
  picks the handler by the thrown exception's own class, without Camel's
  cause-chain lookup. The redelivery delay is not modelled.
- Route.HandleRequest: each step runs once. The error handler's policy of
  two redeliveries is stated on its own (`ErrorHandlerConfig.AttemptsMade`)
  and is not composed into the route. In the source, a failed step is sent
  again up to twice before its handler runs. A redelivered multicast calls
  the three backends again and aggregates from the set the failed attempt
  left.
- Unmarshalled documents are untyped maps. A Jackson list and a
  floating number become `Value.Other` with their text.
- Errors.Exception.Message: a null-pointer exception raised by the JVM is
  modelled with no message, so the handler's fault text ends in `null`.
  Recent JVMs supply a helpful message that names the null reference. This
  only affects `FinalResponseProcessor`'s check on a body that is not a
  map, which the route never produces.
- Errors.CastMessage: the JVM's text of a `ClassCastException` depends on
  the classes involved. The model uses one constant text.
- Camel.AsValueMap: `getBody(Map.class)` on a body that is not a map reads
  as null. Camel's type converters are not modelled.
- Camel.StringProperty: a property is read as a string only when it holds
  one, with no type conversion. `buildMessage` prints the `name` property
  with `toString`, so a non-string `name` would print differently.
- Values.ParseInt: accepts ASCII digits only. Java's `parseInt` also
  accepts other Unicode decimal digits.
- SoapMessageHandler.ValidateMessage: the protocol header map is looked up
  by exact name. CXF's map is case-insensitive.
- SoapResponse.TypedReplies: an untyped map left as the body counts as
  failing the `ResponseDTO` cast when either list entry is non-null. The
  exact point where Java's erased generics throw is not modelled.
- The `isRestricted`/`restricted` fields of the backend body DTOs are not
  modelled. The service never sets them.
- Aliasing between Java maps is not modelled: the aggregated map is both
  the body and the object the strategy writes into. Maps are values here.
- `SoapTransformer`, the CXF endpoint configuration and the other context
  classes are not part of this model.
