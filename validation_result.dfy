/**
 * `ValidationResult`: an immutable record of a validity flag, the two
 * blacklist match flags and a message. As a datatype value it cannot
 * change after construction, which is what the Java `final` fields give.
 */
module Validation {

  datatype ValidationResult = ValidationResult(
    isValid: bool,
    isDefraudador: bool,
    isRestringido: bool,
    message: string)
  {
    function HasCoincidence(): bool {
      isDefraudador || isRestringido
    }

    function HasAnyMatch(): bool {
      isDefraudador || isRestringido
    }
  }

  /** The `(boolean, boolean)` constructor used for the blacklist verdict. */
  function ForLists(isDefraudador: bool, isRestringido: bool): (v: ValidationResult)
    ensures v.isValid && v.message == "OK"
    ensures v.isDefraudador == isDefraudador && v.isRestringido == isRestringido
  {
    ValidationResult(true, isDefraudador, isRestringido, "OK")
  }

  /** The `(boolean, String)` constructor used for response checks: it never
      reports a match. */
  function ForResponse(isValid: bool, message: string): (v: ValidationResult)
    ensures v.isValid == isValid && v.message == message
    ensures !v.isDefraudador && !v.isRestringido
  {
    ValidationResult(isValid, false, false, message)
  }

  /** The four-argument constructor stores its arguments unchanged; this is
      the datatype constructor itself. */
  lemma FullConstructorStores(isValid: bool, isDefraudador: bool, isRestringido: bool, message: string)
    ensures var v := ValidationResult(isValid, isDefraudador, isRestringido, message);
            v.isValid == isValid && v.isDefraudador == isDefraudador
            && v.isRestringido == isRestringido && v.message == message
  {
  }

  /** `hasCoincidence` and `hasAnyMatch` always agree: both are "either list
      matched". */
  lemma CoincidenceIsAnyMatch(v: ValidationResult)
    ensures v.HasCoincidence() == v.HasAnyMatch() == (v.isDefraudador || v.isRestringido)
  {
  }

  /** A result built for a response check never has a coincidence. */
  lemma ResponseCheckHasNoCoincidence(isValid: bool, message: string)
    ensures !ForResponse(isValid, message).HasCoincidence()
  {
  }
}
