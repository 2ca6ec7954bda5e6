/** The slice of ArduinoJson and Arduino's String that the FyrNode protocol
    relies on: a JSON document as a value, indexing into it, and the
    conversions the receive callbacks apply to what they find there. */
module Json {

  /** A JSON value as held by a StaticJsonDocument. */
  datatype Json =
    | Null
    | Str(s: string)
    | Int(i: int)
    | Real(r: real)
    | Obj(fields: map<string, Json>)

  const UINT32_LIMIT: int := 0x1_0000_0000

  /** `doc[key]`: the member's value, or null when the key is missing or
      the value indexed is not an object. */
  function Member(j: Json, key: string): (v: Json)
    ensures j.Obj? && key in j.fields ==> v == j.fields[key]
    ensures !(j.Obj? && key in j.fields) ==> v == Null
  {
    if j.Obj? && key in j.fields then j.fields[key] else Null
  }

  /** Converting a value to `uint32_t`: an integer in range reads as itself,
      a number in range is truncated, and everything else (null included)
      reads as 0. */
  function AsUint32(j: Json): (n: int)
    ensures 0 <= n < UINT32_LIMIT
    ensures n != 0 ==> j.Int? || j.Real?
    ensures j.Int? && 0 <= j.i < UINT32_LIMIT ==> n == j.i
  {
    match j
    case Int(i) => if 0 <= i < UINT32_LIMIT then i else 0
    case Real(r) => if 0.0 <= r < UINT32_LIMIT as real then r.Floor else 0
    case _ => 0
  }

  /** Converting a value to an Arduino `String`: a string reads as itself,
      anything else as the text "null". */
  function AsText(j: Json): (t: string)
    ensures j.Str? ==> t == j.s
    ensures !j.Str? ==> t == "null"
  {
    if j.Str? then j.s else "null"
  }

  function Digit(d: nat): (c: char)
    requires d < 10
    ensures '0' <= c <= '9'
  {
    "0123456789"[d]
  }

  predicate IsDigit(c: char)
  {
    '0' <= c <= '9'
  }

  /** `String(n)` for a non-negative `long`: its decimal digits, most
      significant first, with no leading zero. */
  function DecimalText(n: nat): (t: string)
    ensures |t| >= 1
    ensures forall k :: 0 <= k < |t| ==> IsDigit(t[k])
    ensures t[0] == '0' ==> n == 0 && t == "0"
    decreases n
  {
    if n < 10 then [Digit(n)] else DecimalText(n / 10) + [Digit(n % 10)]
  }

  /** The number a string of decimal digits stands for. */
  function DecimalValue(t: string): nat
    requires forall k :: 0 <= k < |t| ==> IsDigit(t[k])
  {
    if t == [] then 0
    else
      assert IsDigit(t[|t| - 1]);
      10 * DecimalValue(t[..|t| - 1]) + (t[|t| - 1] as int - '0' as int)
  }

  /** Reading the decimal text back gives the number: `String(n)` loses
      nothing, so two ping ids compare equal as text exactly when they are
      the same number. */
  lemma {:induction false} DecimalRoundTrip(n: nat)
    ensures DecimalValue(DecimalText(n)) == n
    decreases n
  {
    var t := DecimalText(n);
    if n < 10 {
      assert t[..|t| - 1] == [];
    } else {
      DecimalRoundTrip(n / 10);
      assert t[..|t| - 1] == DecimalText(n / 10);
    }
  }

  lemma DecimalTextInjective(m: nat, n: nat)
    ensures DecimalText(m) == DecimalText(n) <==> m == n
  {
    DecimalRoundTrip(m);
    DecimalRoundTrip(n);
  }
}
