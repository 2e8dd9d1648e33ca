/** Quantities and amounts of money as text: what the ledger parses, and what it prints. */
module LedDecimal {
  import opened Results
  import opened Sequences
  import opened DecimalText

  // --------------------------------------------------------------- parsing

  /** `ParsePositive`. */
  function ParsePositive(text: string, scale: nat, allowZero: bool): (r: Option<nat>)
    ensures r.Some? ==> r.value < MAX_INT64
  {
    var value := TrimSpace(text);
    var parts := Split(value);
    if value == "" || value[0] == '-' || value[0] == '+' || |parts| > 2 || parts[0] == "" then None
    else if exists p :: p in parts && !AllDigits(p) then None
    else if |parts| == 2 && (parts[1] == "" || |parts[1]| > scale) then None
    else
      var fraction := if |parts| == 2 then parts[1] else "";
      var digits := TrimLeftZeros(parts[0] + (fraction + Zeros(scale - |fraction|)));
      if digits == "" then if allowZero then Some(0) else None
      else
        match ParseInt(digits)
        case None => None
        case Some(parsed) => if parsed < 0 || parsed == MAX_INT64 then None else Some(parsed)
  }

  /** The same as it runs: the digits are checked one by one in every part that has some. */
  method ParsePositiveFixed(text: string, scale: nat, allowZero: bool) returns (r: Option<nat>)
    ensures r == ParsePositive(text, scale, allowZero)
  {
    var value := TrimSpace(text);
    if value == "" || value[0] == '-' || value[0] == '+' {
      return None;
    }
    var parts := Split(value);
    if |parts| > 2 || parts[0] == "" {
      return None;
    }
    for k := 0 to |parts|
      invariant forall p :: p in parts[..k] ==> AllDigits(p)
    {
      for i := 0 to |parts[k]|
        invariant AllDigits(parts[k][..i])
      {
        if parts[k][i] < '0' || parts[k][i] > '9' {
          assert parts[k] in parts && !IsDigit(parts[k][i]);
          return None;
        }
        assert parts[k][..i + 1] == parts[k][..i] + [parts[k][i]];
      }
      assert parts[k][..|parts[k]|] == parts[k] && parts[..k + 1] == parts[..k] + [parts[k]];
    }
    assert parts[..|parts|] == parts;
    var fraction := "";
    if |parts| == 2 {
      fraction := parts[1];
      if fraction == "" || |fraction| > scale {
        return None;
      }
    }
    fraction := fraction + Zeros(scale - |fraction|);
    var digits := TrimLeftZeros(parts[0] + fraction);
    if digits == "" {
      return if allowZero then Some(0) else None;
    }
    var parsed := ParseInt(digits);
    if parsed.None? || parsed.value == MAX_INT64 {
      return None;
    }
    return Some(parsed.value);
  }

  lemma DigitsOfDecimal(text: string, whole: string, fraction: string, scale: nat)
    requires IsDecimal(text, whole, fraction, scale)
    ensures var digits := TrimLeftZeros(whole + (fraction + Zeros(scale - |fraction|)));
            AllDigits(digits) && Number(digits) == UnitsOf(whole, fraction, scale)
    ensures TrimLeftZeros(whole + (fraction + Zeros(scale - |fraction|))) == ""
       <==> UnitsOf(whole, fraction, scale) == 0
  {
    hide TrimLeftZeros, Zeros, UnitsOf;
    var padded := whole + (fraction + Zeros(scale - |fraction|));
    PaddedNumber(whole, fraction, scale);
    NumberTrimLeft(padded);
    TrimmedHasNoZero(padded);
    if TrimLeftZeros(padded) != "" {
      TrimmedStart(padded);
      FormatsBack(TrimLeftZeros(padded));
    }
  }

  /** Trimming leaves no zero in front. */
  lemma {:induction false} TrimmedStart(s: string)
    ensures TrimLeftZeros(s) != "" ==> TrimLeftZeros(s)[0] != '0'
  {
    if |s| > 0 && s[0] == '0' {
      TrimmedStart(s[1..]);
    }
  }

  lemma ParsedDecimal(text: string, whole: string, fraction: string, scale: nat, allowZero: bool)
    requires IsDecimal(TrimSpace(text), whole, fraction, scale)
    ensures var v := UnitsOf(whole, fraction, scale);
            ParsePositive(text, scale, allowZero) == if v < MAX_INT64 && (allowZero || v > 0) then Some(v) else None
  {
    hide TrimSpace, Split, TrimLeftZeros, Zeros, Number, UnitsOf;
    PartsOfDecimal(TrimSpace(text), whole, fraction, scale);
    DigitsOfDecimal(TrimSpace(text), whole, fraction, scale);
    DigitsStart(TrimSpace(text), whole, fraction, scale);
  }

  lemma DigitsStart(text: string, whole: string, fraction: string, scale: nat)
    requires IsDecimal(text, whole, fraction, scale)
    ensures text != "" && IsDigit(text[0])
  {
  }

  lemma AcceptedIsDecimal(text: string, scale: nat, allowZero: bool) returns (whole: string, fraction: string)
    requires ParsePositive(text, scale, allowZero).Some?
    ensures IsDecimal(TrimSpace(text), whole, fraction, scale)
  {
    hide TrimSpace, TrimLeftZeros, Zeros, ParseInt;
    var parts := Split(TrimSpace(text));
    SplitJoins(TrimSpace(text));
    whole := parts[0];
    fraction := if |parts| == 2 then parts[1] else "";
  }

  /** Around white space, exactly the unsigned decimals of the scale are accepted whose value is below the largest
      64-bit integer, zero only where it is allowed, and their value is returned exactly. */
  lemma AcceptsExactly(text: string, scale: nat, allowZero: bool, v: nat)
    ensures ParsePositive(text, scale, allowZero) == Some(v)
       <==> && v < MAX_INT64 && (allowZero || v > 0)
            && exists whole, fraction :: Denotes(TrimSpace(text), whole, fraction, scale, v)
  {
    hide ParsePositive, TrimSpace, Number;
    if ParsePositive(text, scale, allowZero) == Some(v) {
      var whole, fraction := AcceptedIsDecimal(text, scale, allowZero);
      ParsedDecimal(text, whole, fraction, scale, allowZero);
      assert Denotes(TrimSpace(text), whole, fraction, scale, v);
    }
    if whole, fraction :| Denotes(TrimSpace(text), whole, fraction, scale, v) {
      ParsedDecimal(text, whole, fraction, scale, allowZero);
    }
  }

  // -------------------------------------------------------------- printing

  function LeftPad(text: string, width: nat): string {
    if |text| >= width then text else Zeros(width - |text|) + text
  }

  /** From three fraction digits on, trailing zeros are dropped, but for one after the point. */
  function Shortened(text: string, scale: nat): string {
    if scale <= 2 then text
    else
      var trimmed := TrimRightZeros(text);
      if |trimmed| > 0 && trimmed[|trimmed| - 1] == '.' then trimmed + "0" else trimmed
  }

  const MIN_INT64: int := -0x8000_0000_0000_0000

  /** Negation of a 64-bit integer, which wraps around at the smallest one. */
  function Negated(value: int): int {
    if value == MIN_INT64 then value else -value
  }

  /** `strconv.FormatInt(n, 10)`. */
  function FormatInteger(n: int): string {
    if n < 0 then "-" + FormatInt(-n) else FormatInt(n)
  }

  /** Integer division with its remainder. */
  function DivMod(value: nat, divisor: nat): (r: (nat, nat))
    requires divisor > 0
    ensures r.0 * divisor + r.1 == value && r.1 < divisor
  {
    (value / divisor, value % divisor)
  }

  /** The same for any sign: the quotient is truncated and the remainder has the sign of the value. */
  function TruncatedDivMod(value: int, divisor: nat): (int, int)
    requires divisor > 0
  {
    var sign: int := if value < 0 then -1 else 1;
    var (quotient, remainder) := DivMod(sign * value, divisor);
    (sign * quotient, sign * remainder)
  }

  function FormatFixed(value: int, scale: nat): string {
    var (whole, fraction) := TruncatedDivMod(value, Pow10(scale));
    Shortened(FormatInteger(whole) + "." + LeftPad(FormatInteger(fraction), scale), scale)
  }

  /** `formatSignedFixed`. */
  function FormatSigned(value: int, scale: nat): string {
    if value < 0 then "-" + FormatFixed(Negated(value), scale) else FormatFixed(value, scale)
  }

  /** `formatAbsoluteQuantity` and `formatAbsoluteMoney`. */
  function FormatAbsolute(value: int, scale: nat): string {
    FormatSigned(if value < 0 then Negated(value) else value, scale)
  }

  /** `formatSignedFixed` as it runs: the divisor is multiplied up. */
  method FormatSignedFixed(value: int, scale: nat) returns (r: string)
    ensures r == FormatSigned(value, scale)
  {
    hide DivMod, FormatInteger, TrimRightZeros, TruncatedDivMod;
    var sign, rest := "", value;
    if value < 0 {
      sign, rest := "-", Negated(value);
    }
    var divisor: nat := 1;
    for k := 0 to scale
      invariant divisor == Pow10(k)
    {
      divisor := divisor * 10;
    }
    var (whole, fraction) := TruncatedDivMod(rest, divisor);
    var text := FormatInteger(whole) + "." + LeftPad(FormatInteger(fraction), scale);
    if scale > 2 {
      text := TrimRightZeros(text);
      if |text| > 0 && text[|text| - 1] == '.' {
        text := text + "0";
      }
    }
    return sign + text;
  }

  lemma {:induction false} TrimRightAppend(a: string, b: string)
    requires |a| > 0 && a[|a| - 1] != '0'
    ensures TrimRightZeros(a + b) == a + TrimRightZeros(b)
  {
    if |b| > 0 && b[|b| - 1] == '0' {
      assert (a + b)[..|a + b| - 1] == a + b[..|b| - 1];
      TrimRightAppend(a, b[..|b| - 1]);
    }
  }

  lemma {:induction false} TrimRightStops(s: string)
    ensures TrimRightZeros(s) == "" || TrimRightZeros(s)[|TrimRightZeros(s)| - 1] != '0'
    ensures AllDigits(s) ==> AllDigits(TrimRightZeros(s))
  {
    if |s| > 0 && s[|s| - 1] == '0' {
      TrimRightStops(s[..|s| - 1]);
    }
  }

  /** The fraction that is printed after the point. */
  function PrintedFraction(digits: string, scale: nat): string {
    if scale <= 2 then digits else if TrimRightZeros(digits) == "" then "0" else TrimRightZeros(digits)
  }

  lemma PrintedParts(whole: string, digits: string, scale: nat)
    requires AllDigits(digits)
    ensures Shortened(whole + "." + digits, scale) == whole + "." + PrintedFraction(digits, scale)
  {
    if scale > 2 {
      TrimRightAppend(whole + ".", digits);
      TrimRightStops(digits);
      var trimmed := TrimRightZeros(digits);
      if trimmed == "" {
        assert whole + "." + "" == whole + ".";
        assert (whole + ".") + "0" == whole + "." + "0";
      } else {
        assert IsDigit(trimmed[|trimmed| - 1]);
        assert (whole + "." + trimmed)[|whole + "." + trimmed| - 1] == trimmed[|trimmed| - 1];
      }
    }
  }

  lemma PrintedValue(digits: string, scale: nat)
    requires AllDigits(digits) && |digits| == scale >= 1
    ensures var f := PrintedFraction(digits, scale);
            0 < |f| <= scale && AllDigits(f) && Number(f) * Pow10(scale - |f|) == Number(digits)
  {
    NumberTrimRight(digits);
    assert "0"[..0] == "" && Number("0") == 0;
    assert Pow10(0) == 1;
  }

  /** What is printed of a magnitude is a decimal of the scale, with that value. */
  lemma FormattedDecimal(v: nat, scale: nat) returns (whole: string, fraction: string)
    requires scale >= 1
    ensures IsDecimal(FormatFixed(v, scale), whole, fraction, scale) && UnitsOf(whole, fraction, scale) == v
  {
    hide FormatInt, Shortened, PrintedFraction, Number, DivMod, Pow10, LeftPad;
    var (units, rest) := DivMod(v, Pow10(scale));
    var digits := LeftPad(FormatInt(rest), scale);
    PaddedLeft(rest, scale);
    PaddedIs(FormatInt(rest), scale);
    PrintedParts(FormatInt(units), digits, scale);
    PrintedValue(digits, scale);
    whole, fraction := FormatInt(units), PrintedFraction(digits, scale);
  }

  lemma PaddedIs(text: string, width: nat)
    requires |text| <= width
    ensures LeftPad(text, width) == Zeros(width - |text|) + text
  {
  }

  function Magnitude(value: int): nat {
    if value < 0 then -value else value
  }

  lemma {:induction false} TrimKeepsFirst(s: string)
    requires |s| > 0 && !IsSpace(s[0])
    ensures TrimSpace(s) != "" && TrimSpace(s)[0] == s[0]
  {
    if IsSpace(s[|s| - 1]) {
      TrimKeepsFirst(s[..|s| - 1]);
    }
  }

  lemma SignIsRefused(text: string, scale: nat, allowZero: bool)
    ensures ParsePositive("-" + text, scale, allowZero) == None
  {
    TrimKeepsFirst("-" + text);
  }

  /** Parsing what is printed of the magnitude of a 64-bit integer gives the magnitude again, unless it is not below the
      largest 64-bit integer, which is refused; a printed sign is refused too. */
  lemma PrintedIsParsed(v: int, scale: nat, allowZero: bool)
    requires v >= MIN_INT64 && scale >= 1
    ensures ParsePositive(FormatAbsolute(v, scale), scale, allowZero)
         == if Magnitude(v) < MAX_INT64 && (allowZero || v != 0) then Some(Magnitude(v)) else None
    ensures v >= 0 ==> FormatSigned(v, scale) == FormatAbsolute(v, scale)
    ensures v < 0 ==> ParsePositive(FormatSigned(v, scale), scale, allowZero) == None
  {
    hide FormatFixed, ParsePositive;
    if v < 0 {
      SignIsRefused(FormatFixed(Negated(v), scale), scale, allowZero);
    }
    if v != MIN_INT64 {
      var whole, fraction := FormattedDecimal(Magnitude(v), scale);
      var text := FormatFixed(Magnitude(v), scale);
      NothingToTrim(text, whole, fraction, scale);
      ParsedDecimal(text, whole, fraction, scale, allowZero);
    }
  }
}
