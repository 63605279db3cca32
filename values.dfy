/**
 * Java-side values as the service sees them after Jackson has unmarshalled a
 * JSON or XML document: untyped maps of strings to objects, plus the few
 * pieces of `java.lang` behaviour the processors rely on (`Map.get`,
 * string concatenation of a possibly-null value, `String.trim`,
 * `Integer.toString` and `Integer.parseInt`).
 */
module Values {

  datatype Option<+T> = None | Some(value: T) {
    function GetOr(default: T): T {
      match this
      case Some(v) => v
      case None => default
    }
  }

  datatype Result<+T, +E> = Ok(value: T) | Err(error: E)

  datatype Outcome<+E> = Pass | Fail(error: E)

  /** An unmarshalled Java object. `Other` stands for any object that is not
      one of the listed kinds (a list, a floating-point number, ...), kept
      as the text its `toString` gives. */
  datatype Value =
    | Null
    | Bool(b: bool)
    | Num(n: int)
    | Str(s: string)
    | Obj(fields: map<string, Value>)
    | Other(text: string)

  /** `Map.get`: an absent key reads as null. */
  function Get(m: map<string, Value>, key: string): Value {
    if key in m then m[key] else Null
  }

  /** A possibly-null `String` as Java's `+` renders it. */
  function Text(s: Option<string>): string {
    s.GetOr("null")
  }

  /** A cast `(String) v` of a map entry: null stays null, a string passes,
      anything else fails the cast. */
  function AsString(v: Value): Result<Option<string>, ()> {
    match v
    case Null => Ok(None)
    case Str(s) => Ok(Some(s))
    case _ => Err(())
  }

  // ---- 32-bit integers -------------------------------------------------

  const IntMin: int := -0x8000_0000
  const IntMax: int := 0x7fff_ffff

  predicate InIntRange(n: int) {
    IntMin <= n <= IntMax
  }

  // ---- String.trim -----------------------------------------------------

  /** `String.trim` removes every leading and trailing char whose code is at
      most U+0020. */
  predicate IsTrimmable(c: char) {
    c <= ' '
  }

  function TrimStart(s: string): (t: string)
    ensures |t| <= |s| && t == s[|s| - |t|..]
    ensures forall i :: 0 <= i < |s| - |t| ==> IsTrimmable(s[i])
    ensures t != [] ==> !IsTrimmable(t[0])
  {
    if s != [] && IsTrimmable(s[0]) then TrimStart(s[1..]) else s
  }

  function TrimEnd(s: string): (t: string)
    ensures |t| <= |s| && t == s[..|t|]
    ensures forall i :: |t| <= i < |s| ==> IsTrimmable(s[i])
    ensures t != [] ==> !IsTrimmable(t[|t| - 1])
  {
    if s != [] && IsTrimmable(s[|s| - 1]) then TrimEnd(s[..|s| - 1]) else s
  }

  function Trim(s: string): (t: string)
    ensures t != [] ==> !IsTrimmable(t[0]) && !IsTrimmable(t[|t| - 1])
  {
    TrimEnd(TrimStart(s))
  }

  predicate AllTrimmable(s: string) {
    forall i :: 0 <= i < |s| ==> IsTrimmable(s[i])
  }

  /** Surrounding blanks are what `trim` removes, and nothing else. */
  lemma {:induction false} TrimSurrounded(lead: string, core: string, trail: string)
    requires AllTrimmable(lead) && AllTrimmable(trail)
    requires core != [] && !IsTrimmable(core[0]) && !IsTrimmable(core[|core| - 1])
    ensures Trim(lead + core + trail) == core
  {
    TrimStartOfBlanks(lead, core + trail);
    assert lead + core + trail == lead + (core + trail);
    TrimEndOfBlanks(core, trail);
  }

  lemma {:induction false} TrimStartOfBlanks(lead: string, rest: string)
    requires AllTrimmable(lead)
    requires rest != [] && !IsTrimmable(rest[0])
    ensures TrimStart(lead + rest) == rest
    decreases |lead|
  {
    if lead == [] {
      assert lead + rest == rest;
    } else {
      assert (lead + rest)[1..] == lead[1..] + rest;
      TrimStartOfBlanks(lead[1..], rest);
    }
  }

  lemma {:induction false} TrimEndOfBlanks(rest: string, trail: string)
    requires AllTrimmable(trail)
    requires rest != [] && !IsTrimmable(rest[|rest| - 1])
    ensures TrimEnd(rest + trail) == rest
    decreases |trail|
  {
    if trail == [] {
      assert rest + trail == rest;
    } else {
      var s := rest + trail;
      assert s[..|s| - 1] == rest + trail[..|trail| - 1];
      TrimEndOfBlanks(rest, trail[..|trail| - 1]);
    }
  }

  // ---- Integer.toString / Integer.parseInt -----------------------------

  predicate IsDigit(c: char) {
    '0' <= c <= '9'
  }

  predicate AllDigits(s: string) {
    forall i :: 0 <= i < |s| ==> IsDigit(s[i])
  }

  function DigitChar(d: nat): (c: char)
    requires d < 10
    ensures IsDigit(c) && c as int - '0' as int == d
  {
    (d + '0' as int) as char
  }

  /** The value of a run of decimal digits, most significant first. */
  function DigitsValue(s: string): nat
    requires AllDigits(s)
  {
    if s == [] then 0
    else DigitsValue(s[..|s| - 1]) * 10 + (s[|s| - 1] as int - '0' as int)
  }

  /** Decimal digits of a natural number, without leading zeros. */
  function NatString(n: nat): (s: string)
    ensures s != [] && AllDigits(s)
  {
    if n < 10 then [DigitChar(n)] else NatString(n / 10) + [DigitChar(n % 10)]
  }

  /** `Integer.toString` / `Long.toString`. */
  function DecimalString(n: int): string {
    if n < 0 then "-" + NatString(-n) else NatString(n)
  }

  /** `Integer.parseInt(s)` on ASCII input: an optional sign, then at least
      one digit, and the value must fit in 32 bits; `None` stands for the
      `NumberFormatException`. */
  function ParseInt(s: string): (r: Option<int>)
    ensures r.Some? ==> InIntRange(r.value)
  {
    if s == [] then None
    else
      var signed := s[0] == '-' || s[0] == '+';
      var digits := if signed then s[1..] else s;
      if digits == [] || !AllDigits(digits) then None
      else
        var magnitude: int := DigitsValue(digits);
        var v := if s[0] == '-' then -magnitude else magnitude;
        if InIntRange(v) then Some(v) else None
  }

  lemma {:induction false} NatStringValue(n: nat)
    ensures DigitsValue(NatString(n)) == n
  {
    var s := NatString(n);
    if n >= 10 {
      NatStringValue(n / 10);
      assert s[..|s| - 1] == NatString(n / 10);
    }
  }

  /** Printing a number and parsing it back gives the number exactly when it
      fits in 32 bits (a wider `Long` fails to parse). */
  lemma ParseDecimalString(n: int)
    ensures ParseInt(DecimalString(n)) == if InIntRange(n) then Some(n) else None
  {
    if n < 0 {
      NatStringValue(-n);
      assert DecimalString(n)[1..] == NatString(-n);
    } else {
      NatStringValue(n);
    }
  }
}
