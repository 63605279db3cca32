/**
 * The exceptions that can leave the processors, as one datatype. The two
 * aggregation exceptions are the service's own; the rest are the JDK and CXF
 * exceptions the processors throw or let through.
 */
module Errors {
  import opened Values
  import SoapFaultBuilder

  /** The underlying failure an `AggregationException` wraps. */
  datatype Cause = NumberFormat | ClassCast | NullPointer

  datatype Exception =
    | AggregationValidationException(message: string)
    | AggregationException(message: string, cause: Cause)
    | IllegalArgumentException(message: string)
      /** A `NumberFormatException` is an `IllegalArgumentException` in Java. */
    | NumberFormatException(message: string)
    | IllegalStateException(message: string)
    | NullPointerException
    | ClassCastException(message: string)
    | ConnectException(message: string)
      /** A CXF `Fault` thrown as an exception by a processor. */
    | SoapFault(fault: SoapFaultBuilder.Fault)
    | OtherException(message: string)
  {
    /** `getMessage()`; an implicit null-pointer exception is taken to have
        none. */
    function Message(): Option<string> {
      match this
      case AggregationValidationException(m) => Some(m)
      case AggregationException(m, _) => Some(m)
      case IllegalArgumentException(m) => Some(m)
      case NumberFormatException(m) => Some(m)
      case IllegalStateException(m) => Some(m)
      case NullPointerException => None
      case ClassCastException(m) => Some(m)
      case ConnectException(m) => Some(m)
      case SoapFault(f) => Some(f.message)
      case OtherException(m) => Some(m)
    }

    /** Whether a handler for `IllegalArgumentException` catches it. */
    predicate IsIllegalArgument() {
      IllegalArgumentException? || NumberFormatException?
    }
  }

  /** The JVM writes its own text into a `ClassCastException`; the model
      stands that text in by this constant. */
  const CastMessage: string := "class cast"

  /** What `aggregate` wraps every unexpected failure in. */
  const UnexpectedAggregationMessage: string := "Error inesperado durante la agregación"
}
