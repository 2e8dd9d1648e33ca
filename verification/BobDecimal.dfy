/** Decimal text with up to six fraction digits, to and from an integer number of millionths. */
module BobDecimal {
  import opened Results
  import opened Sequences
  import opened DecimalText

  const SCALE: nat := 6
  const MICROS: nat := 1_000_000

  // ---------------------------------------------------------- the functions

  function FixedMicros(text: string): Option<int> {
    var value := TrimSpace(text);
    var parts := Split(value);
    if value == "" || value[0] == '-' || value[0] == '+' || |parts| > 2 || parts[0] == "" then None
    else if |parts| == 2 && (parts[1] == "" || |parts[1]| > SCALE) then None
    else if exists p :: p in parts && !AllDigits(p) then None
    else
      var fraction := if |parts| == 2 then parts[1] else "";
      match ParseInt(TrimLeftZeros(parts[0] + (fraction + Zeros(SCALE - |fraction|))))
      case None => None
      case Some(parsed) => if parsed <= 0 then None else Some(parsed)
  }

  function FmtSix(value: nat): string
    requires |FormatInt(value)| <= SCALE
  {
    Zeros(SCALE - |FormatInt(value)|) + FormatInt(value)
  }

  function FormatMicros(value: int): string {
    if value <= 0 then ""
    else
      var whole, fraction := value / MICROS, value % MICROS;
      PowerOfSix();
      ShortNumber(fraction, SCALE);
      var result := FormatInt(whole) + "." + TrimRightZeros(FmtSix(fraction));
      if result[|result| - 1] == '.' then result + "0" else result
  }

  /** `fixedMicros` as it runs: the digits are checked one by one in every part. */
  method ParseFixedMicros(text: string) returns (micros: Option<int>)
    ensures micros == FixedMicros(text)
  {
    var value := TrimSpace(text);
    var parts := Split(value);
    if value == "" || value[0] == '-' || value[0] == '+' || |parts| > 2 || parts[0] == "" {
      return None;
    }
    var fraction := "";
    if |parts| == 2 {
      fraction := parts[1];
      if fraction == "" || |fraction| > SCALE {
        return None;
      }
    }
    for k := 0 to |parts|
      invariant forall p :: p in parts[..k] ==> AllDigits(p)
    {
      for i := 0 to |parts[k]|
        invariant AllDigits(parts[k][..i])
      {
        if parts[k][i] < '0' || parts[k][i] > '9' {
          assert parts[k] in parts && !IsDigit(parts[k][i]);
          return None;
        }
        assert parts[k][..i + 1] == parts[k][..i] + [parts[k][i]];
      }
      assert parts[k][..|parts[k]|] == parts[k] && parts[..k + 1] == parts[..k] + [parts[k]];
    }
    assert parts[..|parts|] == parts;
    fraction := fraction + Zeros(SCALE - |fraction|);
    var parsed := ParseInt(TrimLeftZeros(parts[0] + fraction));
    if parsed.None? || parsed.value <= 0 {
      return None;
    }
    return parsed;
  }

  // ------------------------------------------------------------- acceptance

  lemma ParsedDecimal(text: string, whole: string, fraction: string)
    requires IsDecimal(TrimSpace(text), whole, fraction, SCALE)
    ensures var v := UnitsOf(whole, fraction, SCALE); FixedMicros(text) == if 0 < v <= MAX_INT64 then Some(v) else None
  {
    hide TrimSpace, Split, TrimLeftZeros, Zeros, Number;
    PartsOfDecimal(TrimSpace(text), whole, fraction, SCALE);
    PaddedNumber(whole, fraction, SCALE);
    NumberTrimLeft(whole + (fraction + Zeros(SCALE - |fraction|)));
  }

  lemma AcceptedIsDecimal(text: string) returns (whole: string, fraction: string)
    requires FixedMicros(text).Some?
    ensures IsDecimal(TrimSpace(text), whole, fraction, SCALE)
  {
    hide TrimSpace, TrimLeftZeros, Zeros, ParseInt;
    var parts := Split(TrimSpace(text));
    SplitJoins(TrimSpace(text));
    whole := parts[0];
    fraction := if |parts| == 2 then parts[1] else "";
  }

  /** Around white space, exactly the unsigned decimals with at most six fraction digits and a positive value that
      fits are accepted, and their value is returned exactly. */
  lemma AcceptsExactly(text: string, v: int)
    ensures FixedMicros(text) == Some(v)
       <==> 0 < v <= MAX_INT64 && exists whole, fraction :: Denotes(TrimSpace(text), whole, fraction, SCALE, v)
  {
    hide FixedMicros, TrimSpace, Number;
    if FixedMicros(text) == Some(v) {
      var whole, fraction := AcceptedIsDecimal(text);
      ParsedDecimal(text, whole, fraction);
      assert Denotes(TrimSpace(text), whole, fraction, SCALE, v);
    }
    if whole, fraction :| Denotes(TrimSpace(text), whole, fraction, SCALE, v) {
      ParsedDecimal(text, whole, fraction);
    }
  }

  // ------------------------------------------------------------ round trip

  lemma SixDigits(value: nat)
    requires |FormatInt(value)| <= SCALE
    ensures FmtSix(value) == Zeros(SCALE - |FormatInt(value)|) + FormatInt(value)
  {
  }

  /** What is printed: the whole part, and the fraction without trailing zeros, but one digit at least. */
  lemma FormattedDecimal(v: int) returns (whole: string, fraction: string)
    requires v > 0
    ensures IsDecimal(FormatMicros(v), whole, fraction, SCALE) && fraction != ""
    ensures UnitsOf(whole, fraction, SCALE) == v
  {
    hide FormatInt, TrimRightZeros, FmtSix;
    var value := v % MICROS;
    PowerOfSix();
    PaddedLeft(value, SCALE);
    SixDigits(value);
    NumberTrimRight(FmtSix(value));
    whole, fraction := FormatInt(v / MICROS), TrimRightZeros(FmtSix(value));
    if fraction == "" {
      fraction := "0";
      assert "0"[..0] == "" && Number("0") == 0;
      assert whole + "." + "" + "0" == whole + "." + "0";
    } else {
      assert IsDigit(fraction[|fraction| - 1]);
    }
  }

  /** Printing and parsing back gives every positive 64-bit value again. */
  lemma RoundTrip(v: int)
    requires 0 < v <= MAX_INT64
    ensures FixedMicros(FormatMicros(v)) == Some(v)
  {
    var whole, fraction := FormattedDecimal(v);
    NothingToTrim(FormatMicros(v), whole, fraction, SCALE);
    ParsedDecimal(FormatMicros(v), whole, fraction);
  }

  // ---------------------------------------------------------- load capacity

  const LOAD_DIGITS: nat := 9
  const LOAD_SCALE: nat := 3
  const LOAD_UNIT: nat := 1000

  /** One to nine digits, and possibly a point and one to three digits more. */
  ghost predicate IsLoad(text: string, integer: string, fraction: string) {
    |integer| <= LOAD_DIGITS && IsDecimal(text, integer, fraction, LOAD_SCALE)
  }

  /** The submatches of the load capacity pattern. */
  function MatchLoad(text: string): (m: Option<(string, string)>)
    ensures m.Some? ==> IsLoad(text, m.value.0, m.value.1)
  {
    var parts := Split(text);
    SplitJoins(text);
    if |parts| > 2 || !AllDigits(parts[0]) || !(1 <= |parts[0]| <= LOAD_DIGITS) then None
    else if |parts| == 1 then Some((parts[0], ""))
    else if !AllDigits(parts[1]) || !(1 <= |parts[1]| <= LOAD_SCALE) then None
    else Some((parts[0], parts[1]))
  }

  lemma MatchesLoads(text: string, integer: string, fraction: string)
    requires IsLoad(text, integer, fraction)
    ensures MatchLoad(text) == Some((integer, fraction))
  {
    PartsOfDecimal(text, integer, fraction, LOAD_SCALE);
  }

  function CanonicalLoad(integer: string, fraction: string): string
    requires |fraction| <= LOAD_SCALE
  {
    var trimmed := TrimLeftZeros(integer);
    (if trimmed == "" then "0" else trimmed) + "." + (fraction + Zeros(LOAD_SCALE - |fraction|))
  }

  function NormalizeLoad(text: string): string {
    var value := TrimSpace(text);
    match MatchLoad(value)
    case None => value
    case Some((integer, fraction)) => CanonicalLoad(integer, fraction)
  }

  /** `normalizeLoadCapacity` as it runs: the fraction is padded digit by digit. */
  method NormalizeLoadCapacity(text: string) returns (r: string)
    ensures r == NormalizeLoad(text)
  {
    var value := TrimSpace(text);
    var matched := MatchLoad(value);
    if matched.None? {
      return value;
    }
    var integer := TrimLeftZeros(matched.value.0);
    if integer == "" {
      integer := "0";
    }
    var fraction := matched.value.1;
    ghost var first := fraction;
    while |fraction| < LOAD_SCALE
      invariant |first| <= |fraction| <= LOAD_SCALE
      invariant fraction == first + Zeros(|fraction| - |first|)
    {
      fraction := fraction + "0";
    }
    r := integer + "." + fraction;
  }

  /** The value of a load capacity in thousandths. */
  function Thousandths(integer: string, fraction: string): nat
    requires AllDigits(integer) && AllDigits(fraction) && |fraction| <= LOAD_SCALE
  {
    Number(integer) * LOAD_UNIT + Number(fraction) * Pow10(LOAD_SCALE - |fraction|)
  }

  /** The parts of the canonical form: no leading zero, exactly three fraction digits, the same value. */
  lemma CanonicalParts(integer: string, fraction: string) returns (i: string, f: string)
    requires AllDigits(integer) && AllDigits(fraction) && |fraction| <= LOAD_SCALE
    ensures CanonicalLoad(integer, fraction) == i + "." + f
    ensures AllDigits(i) && NoLeadingZero(i) && |i| <= |integer| + 1 && (|integer| > 0 ==> |i| <= |integer|)
    ensures AllDigits(f) && |f| == LOAD_SCALE
    ensures Number(i) * LOAD_UNIT + Number(f) == Thousandths(integer, fraction)
  {
    var trimmed := TrimLeftZeros(integer);
    NumberTrimLeft(integer);
    TrimmedHasNoZero(integer);
    TrimLeftShortens(integer);
    i := if trimmed == "" then "0" else trimmed;
    assert "0"[..0] == "" && Number("0") == 0;
    f := fraction + Zeros(LOAD_SCALE - |fraction|);
    NumberZeros(LOAD_SCALE - |fraction|);
    NumberAppend(fraction, Zeros(LOAD_SCALE - |fraction|));
  }

  /** Two load capacities are normalised to the same text exactly when they have the same value. */
  lemma NormalFormIsValue(a: string, ai: string, af: string, b: string, bi: string, bf: string)
    requires IsLoad(TrimSpace(a), ai, af) && IsLoad(TrimSpace(b), bi, bf)
    ensures NormalizeLoad(a) == NormalizeLoad(b) <==> Thousandths(ai, af) == Thousandths(bi, bf)
  {
    MatchesLoads(TrimSpace(a), ai, af);
    MatchesLoads(TrimSpace(b), bi, bf);
    var i, f := CanonicalParts(ai, af);
    var j, g := CanonicalParts(bi, bf);
    hide Thousandths, CanonicalLoad, Number, Pow10, TrimSpace, FormatInt, NoLeadingZero;
    SameCanonical(i, f, j, g);
  }

  lemma SameCanonical(i: string, f: string, j: string, g: string)
    requires AllDigits(i) && NoLeadingZero(i) && AllDigits(f) && |f| == LOAD_SCALE
    requires AllDigits(j) && NoLeadingZero(j) && AllDigits(g) && |g| == LOAD_SCALE
    ensures i + "." + f == j + "." + g <==> Number(i) * LOAD_UNIT + Number(f) == Number(j) * LOAD_UNIT + Number(g)
  {
    hide Number, FormatInt, NoLeadingZero;
    if i + "." + f == j + "." + g {
      SamePoint(i, f, j, g);
    }
    if Number(i) * LOAD_UNIT + Number(f) == Number(j) * LOAD_UNIT + Number(g) {
      NumberBelow(f);
      NumberBelow(g);
      PowerOfScale();
      assert Number(i) == Number(j) && Number(f) == Number(g);
      FormatsBack(i);
      FormatsBack(j);
      SameDigits(f, g);
    }
  }

  lemma PowerOfScale()
    ensures Pow10(LOAD_SCALE) == LOAD_UNIT
  {
    assert Pow10(1) == 10;
  }

  lemma SamePoint(i: string, f: string, j: string, g: string)
    requires AllDigits(i) && AllDigits(f) && AllDigits(j) && AllDigits(g)
    requires i + "." + f == j + "." + g
    ensures i == j && f == g
  {
    SplitPoint(i, f);
    SplitPoint(j, g);
    SplitPlain(f);
    SplitPlain(g);
    hide Split;
    assert ([i] + [f])[0] == i && ([j] + [g])[0] == j;
    assert ([i] + [f])[1] == f && ([j] + [g])[1] == g;
  }

  /** The text "0.000" that the validation refuses stands for every way of writing zero. */
  lemma ZeroLoad(text: string, integer: string, fraction: string)
    requires IsLoad(TrimSpace(text), integer, fraction)
    ensures NormalizeLoad(text) == "0.000" <==> Thousandths(integer, fraction) == 0
  {
    MatchesLoads(TrimSpace(text), integer, fraction);
    var i, f := CanonicalParts(integer, fraction);
    assert "0" + "." + "000" == "0.000";
    assert "0"[..0] == "" && Number("0") == 0;
    assert "000"[..2] == "00" && "00"[..1] == "0" && Number("000") == 0;
    hide Thousandths, CanonicalLoad, Number, Pow10, TrimSpace, FormatInt;
    SameCanonical(i, f, "0", "000");
  }

  /** Normalising again changes nothing. */
  lemma NormalizeIsIdempotent(text: string)
    ensures NormalizeLoad(NormalizeLoad(text)) == NormalizeLoad(text)
  {
    TrimIsIdempotent(text);
    var m := MatchLoad(TrimSpace(text));
    if m.Some? {
      var i, f := CanonicalParts(m.value.0, m.value.1);
      var r := NormalizeLoad(text);
      assert r == i + "." + f;
      assert IsDigit(r[0]) && IsDigit(r[|r| - 1]);
      assert TrimSpace(r) == r;
      MatchesLoads(r, i, f);
      assert IsLoad(TrimSpace(r), i, f);
      SecondNormalization(r, i, f);
    }
  }

  lemma SecondNormalization(r: string, i: string, f: string)
    requires TrimSpace(r) == r && r == i + "." + f && IsLoad(r, i, f) && NoLeadingZero(i) && |f| == LOAD_SCALE
    ensures NormalizeLoad(r) == r
  {
    MatchesLoads(r, i, f);
    if i == "0" {
      assert TrimLeftZeros(i) == "" by {
        assert i[1..] == "";
      }
    }
    assert f + Zeros(0) == f;
  }

}
