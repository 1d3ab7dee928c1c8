/** Small value types shared by the backend and the frontend models. */
module Common {

  /** A value that may be missing: Python's `None`, JavaScript's `null`/`undefined`. */
  datatype Option<T> = None | Some(value: T)

  /** A JavaScript number value, as `Number(...)` produces it from a route parameter. */
  datatype JsNumber = NaN | PosInfinity | NegInfinity | Finite(r: real)

  /** Decimal digit character for 0..9. */
  function DigitChar(d: nat): (c: char)
    requires d < 10
    ensures '0' <= c <= '9'
    ensures (c as int) - ('0' as int) == d
  {
    (('0' as int) + d) as char
  }

  /** `String(n)` for a non-negative integer: its decimal representation, no leading zeros. */
  function NatToString(n: nat): (s: string)
    ensures |s| > 0
    ensures forall i :: 0 <= i < |s| ==> '0' <= s[i] <= '9'
    decreases n
  {
    if n < 10 then [DigitChar(n)] else NatToString(n / 10) + [DigitChar(n % 10)]
  }

  /** `String(n)` for any integer. */
  function IntToString(n: int): (s: string)
    ensures |s| > 0
    ensures forall i :: 0 <= i < |s| ==> s[i] == '-' || '0' <= s[i] <= '9'
  {
    if n < 0 then "-" + NatToString(-n) else NatToString(n)
  }

  /** The value of a non-empty string of decimal digits; None when a non-digit occurs. */
  function ParseDigits(s: string): (r: Option<nat>)
    ensures r.Some? <==> |s| > 0 && forall i :: 0 <= i < |s| ==> '0' <= s[i] <= '9'
    decreases |s|
  {
    if s == [] then None
    else
      var last := s[|s| - 1];
      if !('0' <= last <= '9') then None
      else if |s| == 1 then Some((last as int) - ('0' as int))
      else match ParseDigits(s[..|s| - 1])
        case None => None
        case Some(v) => Some(v * 10 + ((last as int) - ('0' as int)))
  }

  /**
   * `Number(s)` restricted to plain decimal integers with an optional leading minus.
   * Every other spelling is None: NaN never equals a task id, so those strings
   * behave alike wherever the model looks a number up.
   */
  function ParseInt(s: string): (r: Option<int>)
    ensures s == [] ==> r == None
  {
    if |s| > 0 && s[0] == '-' then
      match ParseDigits(s[1..])
      case None => None
      case Some(v) => Some(-(v as int))
    else
      match ParseDigits(s)
      case None => None
      case Some(v) => Some(v as int)
  }

  lemma {:induction false} ParseDigitsOfNatToString(n: nat)
    ensures ParseDigits(NatToString(n)) == Some(n)
    decreases n
  {
    var s := NatToString(n);
    if n < 10 {
      assert s == [DigitChar(n)];
    } else {
      ParseDigitsOfNatToString(n / 10);
      var prefix := NatToString(n / 10);
      assert s == prefix + [DigitChar(n % 10)];
      assert s[..|s| - 1] == prefix;
      assert s[|s| - 1] == DigitChar(n % 10);
    }
  }

  /** Reading back the decimal form of an integer gives the integer: `Number(String(n)) === n`. */
  lemma {:induction false} ParseIntOfIntToString(n: int)
    ensures ParseInt(IntToString(n)) == Some(n)
  {
    if n < 0 {
      var digits := NatToString(-n);
      ParseDigitsOfNatToString(-n);
      var s := "-" + digits;
      assert s == IntToString(n);
      assert s[0] == '-' && s[1..] == digits;
    } else {
      var digits := NatToString(n);
      ParseDigitsOfNatToString(n);
      assert digits == IntToString(n);
      assert digits[0] != '-';
    }
  }
}
