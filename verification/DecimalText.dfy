/** Decimal text: the library functions the parsers and printers use, and what numbers their digits denote. */
module DecimalText {
  import opened Results
  import opened Sequences

  // --------------------------------------------------- library functions

  /** `unicode.IsSpace`. */
  predicate IsSpace(c: char) {
    || '\U{9}' <= c <= '\U{D}' || c == ' ' || c == '\U{85}' || c == '\U{A0}' || c == '\U{1680}'
    || '\U{2000}' <= c <= '\U{200A}' || c == '\U{2028}' || c == '\U{2029}' || c == '\U{202F}' || c == '\U{205F}'
    || c == '\U{3000}'
  }

  function TrimSpace(s: string): string {
    if |s| == 0 then s
    else if IsSpace(s[0]) then TrimSpace(s[1..])
    else if IsSpace(s[|s| - 1]) then TrimSpace(s[..|s| - 1])
    else s
  }

  /** `strings.Split(s, ".")`. */
  function Split(s: string): (parts: seq<string>)
    ensures |parts| >= 1
  {
    if |s| == 0 then [""]
    else
      var rest := Split(s[1..]);
      if s[0] == '.' then [""] + rest else [[s[0]] + rest[0]] + rest[1..]
  }

  function TrimLeftZeros(s: string): string {
    if |s| > 0 && s[0] == '0' then TrimLeftZeros(s[1..]) else s
  }

  function TrimRightZeros(s: string): string {
    if |s| > 0 && s[|s| - 1] == '0' then TrimRightZeros(s[..|s| - 1]) else s
  }

  function Zeros(n: nat): string {
    seq(n, i => '0')
  }

  predicate IsDigit(c: char) {
    '0' <= c <= '9'
  }

  predicate AllDigits(s: string) {
    forall i :: 0 <= i < |s| ==> IsDigit(s[i])
  }

  function Digit(c: char): nat
    requires IsDigit(c)
  {
    c as int - '0' as int
  }

  /** The number a string of digits denotes. */
  function Number(s: string): nat
    requires AllDigits(s)
  {
    if |s| == 0 then 0 else 10 * Number(s[..|s| - 1]) + Digit(s[|s| - 1])
  }

  /** `strconv.ParseInt(s, 10, 64)` on text without a sign. */
  function ParseInt(s: string): Option<int> {
    if |s| == 0 || !AllDigits(s) || Number(s) > MAX_INT64 then None else Some(Number(s))
  }

  /** `strconv.FormatInt(n, 10)`. */
  function FormatInt(n: nat): (s: string)
    ensures |s| > 0 && AllDigits(s) && Number(s) == n
  {
    if n < 10 then
      var s := [(n + '0' as int) as char];
      assert s[..0] == [];
      s
    else
      var front := FormatInt(n / 10);
      var s := front + [(n % 10 + '0' as int) as char];
      assert s[..|s| - 1] == front;
      s
  }

  function Pow10(n: nat): (p: nat)
    ensures p > 0
  {
    if n == 0 then 1 else 10 * Pow10(n - 1)
  }

  // -------------------------------------------------------------- numbers

  lemma {:induction false} NumberAppend(a: string, b: string)
    requires AllDigits(a) && AllDigits(b)
    ensures AllDigits(a + b) && Number(a + b) == Number(a) * Pow10(|b|) + Number(b)
  {
    if |b| == 0 {
      assert a + b == a;
    } else {
      var front, power := b[..|b| - 1], Pow10(|b| - 1);
      NumberAppend(a, front);
      assert (a + b)[..|a + b| - 1] == a + front;
      Tenfold(Number(a), power, Number(front));
    }
  }

  lemma Tenfold(a: nat, power: nat, b: nat)
    ensures 10 * (a * power + b) == a * (10 * power) + 10 * b
  {
  }

  lemma {:induction false} NumberZeros(n: nat)
    ensures AllDigits(Zeros(n)) && Number(Zeros(n)) == 0
  {
    if n != 0 {
      assert Zeros(n)[..n - 1] == Zeros(n - 1);
      NumberZeros(n - 1);
    }
  }

  lemma {:induction false} NumberTrimLeft(s: string)
    requires AllDigits(s)
    ensures AllDigits(TrimLeftZeros(s)) && Number(TrimLeftZeros(s)) == Number(s)
    ensures TrimLeftZeros(s) == "" ==> Number(s) == 0
  {
    if |s| > 0 && s[0] == '0' {
      NumberTrimLeft(s[1..]);
      assert s == "0" + s[1..];
      assert "0"[..0] == "";
      NumberAppend("0", s[1..]);
    }
  }

  lemma {:induction false} NumberTrimRight(s: string)
    requires AllDigits(s)
    ensures var t := TrimRightZeros(s);
            AllDigits(t) && |t| <= |s| && Number(s) == Number(t) * Pow10(|s| - |t|) && (t == "" ==> Number(s) == 0)
  {
    if |s| > 0 && s[|s| - 1] == '0' {
      var front := s[..|s| - 1];
      NumberTrimRight(front);
      var t := TrimRightZeros(front);
      Tenfold(Number(t), Pow10(|front| - |t|), 0);
    }
  }

  /** A number below a power of ten has at most that many digits. */
  lemma {:induction false} ShortNumber(n: nat, digits: nat)
    requires digits >= 1 && n < Pow10(digits)
    ensures |FormatInt(n)| <= digits
  {
    if n >= 10 {
      ShortNumber(n / 10, digits - 1);
    }
  }

  lemma {:induction false} TrimLeftShortens(s: string)
    ensures |TrimLeftZeros(s)| <= |s|
  {
    if |s| > 0 && s[0] == '0' {
      TrimLeftShortens(s[1..]);
    }
  }

  predicate NoLeadingZero(s: string) {
    |s| > 0 && (s == "0" || s[0] != '0')
  }

  lemma FormatsDigit(c: char)
    requires IsDigit(c)
    ensures AllDigits([c]) && Number([c]) == Digit(c) && FormatInt(Digit(c)) == [c]
  {
    assert [c][..0] == [];
  }

  lemma FormatsOneMore(m: nat, c: char)
    requires m > 0 && IsDigit(c)
    ensures FormatInt(10 * m + Digit(c)) == FormatInt(m) + [c]
  {
    assert (10 * m + Digit(c)) / 10 == m && (10 * m + Digit(c)) % 10 == Digit(c);
  }

  /** A number without leading zeros is written in one way only. */
  lemma {:induction false} FormatsBack(s: string)
    requires AllDigits(s) && NoLeadingZero(s)
    ensures FormatInt(Number(s)) == s
    ensures s[0] != '0' ==> Number(s) > 0
  {
    hide FormatInt;
    var n := |s| - 1;
    if n > 0 {
      var front := s[..n];
      assert front[0] == s[0];
      FormatsBack(front);
      FormatsOneMore(Number(front), s[n]);
      assert s == front + [s[n]];
    } else {
      FormatsDigit(s[0]);
      assert s == [s[0]];
    }
  }

  lemma {:induction false} SameDigits(a: string, b: string)
    requires AllDigits(a) && AllDigits(b) && |a| == |b| && Number(a) == Number(b)
    ensures a == b
  {
    if |a| != 0 {
      var n := |a| - 1;
      SameDigits(a[..n], b[..n]);
      assert a == a[..n] + [a[n]] && b == b[..n] + [b[n]];
    }
  }

  lemma {:induction false} NumberBelow(s: string)
    requires AllDigits(s)
    ensures Number(s) < Pow10(|s|)
  {
    if |s| != 0 {
      NumberBelow(s[..|s| - 1]);
    }
  }

  lemma {:induction false} TrimmedHasNoZero(s: string)
    requires AllDigits(s)
    ensures TrimLeftZeros(s) == "" || NoLeadingZero(TrimLeftZeros(s))
  {
    if |s| > 0 && s[0] == '0' {
      TrimmedHasNoZero(s[1..]);
    }
  }

  // ------------------------------------------------------------- decimals

  /** `text` is digits, and possibly a point and at most `scale` digits more. */
  ghost predicate IsDecimal(text: string, whole: string, fraction: string, scale: nat) {
    && |whole| > 0 && AllDigits(whole) && AllDigits(fraction) && |fraction| <= scale
    && text == if fraction == "" then whole else whole + "." + fraction
  }

  /** The value of such a decimal, in units of its last digit. */
  function UnitsOf(whole: string, fraction: string, scale: nat): nat
    requires AllDigits(whole) && AllDigits(fraction) && |fraction| <= scale
  {
    Number(whole) * Pow10(scale) + Number(fraction) * Pow10(scale - |fraction|)
  }

  ghost predicate Denotes(text: string, whole: string, fraction: string, scale: nat, v: int) {
    IsDecimal(text, whole, fraction, scale) && UnitsOf(whole, fraction, scale) == v
  }

  lemma {:induction false} SplitPlain(s: string)
    requires forall i :: 0 <= i < |s| ==> s[i] != '.'
    ensures Split(s) == [s]
  {
    if |s| != 0 {
      SplitPlain(s[1..]);
      assert s == [s[0]] + s[1..] && [s[1..]][1..] == [];
    }
  }

  lemma {:induction false} SplitPoint(a: string, b: string)
    requires forall i :: 0 <= i < |a| ==> a[i] != '.'
    ensures Split(a + "." + b) == [a] + Split(b)
  {
    var s := a + "." + b;
    if |a| == 0 {
      assert s == "." + b && s[1..] == b;
    } else {
      assert s[1..] == a[1..] + "." + b;
      SplitPoint(a[1..], b);
      assert s[0] == a[0] && a == [a[0]] + a[1..];
      assert ([a[1..]] + Split(b))[1..] == Split(b);
    }
  }

  /** What text a split came from. */
  lemma {:induction false} SplitJoins(s: string)
    ensures |Split(s)| == 1 ==> s == Split(s)[0]
    ensures |Split(s)| == 2 ==> s == Split(s)[0] + "." + Split(s)[1]
  {
    if |s| != 0 {
      var rest := Split(s[1..]);
      SplitJoins(s[1..]);
      assert s == [s[0]] + s[1..];
      if s[0] == '.' {
        assert Split(s) == [""] + rest;
      } else if |rest| == 1 {
        assert Split(s)[0] == [s[0]] + rest[0];
      } else if |rest| == 2 {
        assert Split(s)[0] + "." + Split(s)[1] == [s[0]] + (rest[0] + "." + rest[1]);
      }
    }
  }

  lemma PartsOfDecimal(text: string, whole: string, fraction: string, scale: nat)
    requires IsDecimal(text, whole, fraction, scale)
    ensures Split(text) == if fraction == "" then [whole] else [whole, fraction]
    ensures text[0] == whole[0]
  {
    SplitPlain(whole);
    SplitPlain(fraction);
    if fraction != "" {
      SplitPoint(whole, fraction);
    }
  }

  /** The scaling of the parts is that of the number. */
  lemma PaddedNumber(whole: string, fraction: string, scale: nat)
    requires AllDigits(whole) && AllDigits(fraction) && |fraction| <= scale
    ensures var digits := whole + (fraction + Zeros(scale - |fraction|));
            AllDigits(digits) && Number(digits) == UnitsOf(whole, fraction, scale)
  {
    var zeros := Zeros(scale - |fraction|);
    NumberZeros(scale - |fraction|);
    NumberAppend(fraction, zeros);
    NumberAppend(whole, fraction + zeros);
  }

  /** A number written with leading zeros to a given width. */
  lemma PaddedLeft(value: nat, width: nat)
    requires width >= 1 && value < Pow10(width)
    ensures |FormatInt(value)| <= width
    ensures var text := Zeros(width - |FormatInt(value)|) + FormatInt(value);
            |text| == width && AllDigits(text) && Number(text) == value
  {
    ShortNumber(value, width);
    NumberZeros(width - |FormatInt(value)|);
    NumberAppend(Zeros(width - |FormatInt(value)|), FormatInt(value));
  }

  lemma PowerOfSix()
    ensures Pow10(6) == 1_000_000
  {
    assert Pow10(2) == 100 && Pow10(4) == 10_000;
  }

  lemma NothingToTrim(text: string, whole: string, fraction: string, scale: nat)
    requires IsDecimal(text, whole, fraction, scale)
    ensures TrimSpace(text) == text
  {
    assert IsDigit(text[0]) && IsDigit(text[|text| - 1]);
  }

  lemma {:induction false} TrimIsIdempotent(s: string)
    ensures TrimSpace(TrimSpace(s)) == TrimSpace(s)
    decreases |s|
  {
    if |s| != 0 {
      if IsSpace(s[0]) {
        TrimIsIdempotent(s[1..]);
      } else if IsSpace(s[|s| - 1]) {
        TrimIsIdempotent(s[..|s| - 1]);
      }
    }
  }
}
