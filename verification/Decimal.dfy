/** Decimal text of 64-bit integers: formatting and the parser's exact language. */
module Decimal {
  import opened Common

  const MIN_INT64 := -0x8000_0000_0000_0000
  const MAX_INT64 := 0x7fff_ffff_ffff_ffff

  predicate IsDigit(ch: char) {
    '0' <= ch <= '9'
  }

  predicate AllDigits(s: string) {
    forall i :: 0 <= i < |s| ==> IsDigit(s[i])
  }

  function DigitOf(n: nat): char
    requires n < 10
  {
    '0' + n as char
  }

  function FormatNat(n: nat): (s: string)
    ensures s != [] && AllDigits(s)
  {
    if n < 10 then [DigitOf(n)] else FormatNat(n / 10) + [DigitOf(n % 10)]
  }

  function FormatInt(n: int): string {
    if n < 0 then "-" + FormatNat(-n) else FormatNat(n)
  }

  function ValueOf(s: string): nat
    requires AllDigits(s)
  {
    if s == [] then 0 else 10 * ValueOf(s[..|s| - 1]) + (s[|s| - 1] - '0') as nat
  }

  /** strconv.ParseInt in base 10 with 64 bits: an optional sign, digits, and the range check. */
  function ParseInt(s: string): Option<int> {
    var negative := s != [] && s[0] == '-';
    var digits := if s != [] && (s[0] == '-' || s[0] == '+') then s[1..] else s;
    if digits == [] || !AllDigits(digits) then None
    else
      var v: int := ValueOf(digits);
      var n := if negative then -v else v;
      if MIN_INT64 <= n <= MAX_INT64 then Some(n) else None
  }

  /** A sign or none, then digits: parsed to the value when it fits 64 bits... */
  lemma ParseSigned(sign: string, digits: string)
    requires sign in {"", "+", "-"} && digits != "" && AllDigits(digits)
    ensures var n := if sign == "-" then -(ValueOf(digits) as int) else ValueOf(digits);
            ParseInt(sign + digits) == if MIN_INT64 <= n <= MAX_INT64 then Some(n) else None
  {
    var s := sign + digits;
    if sign == "" {
      assert s == digits && IsDigit(s[0]);
    } else {
      assert s[0] == sign[0] && s[1..] == digits;
    }
  }

  /** ...and nothing else is. */
  lemma OnlySigned(s: string) returns (sign: string, digits: string)
    requires ParseInt(s).Some?
    ensures s == sign + digits && sign in {"", "+", "-"} && digits != "" && AllDigits(digits)
  {
    sign := if s[0] == '-' || s[0] == '+' then s[..1] else "";
    digits := if s[0] == '-' || s[0] == '+' then s[1..] else s;
    assert s[..1] == [s[0]];
  }

  /** No sign but a minus, no leading zero, no negative zero. */
  predicate Canonical(s: string) {
    var digits := if s != [] && s[0] == '-' then s[1..] else s;
    && digits != [] && AllDigits(digits)
    && (digits[0] == '0' ==> s == "0")
  }

  lemma {:induction false} ValueOfFormat(n: nat)
    ensures ValueOf(FormatNat(n)) == n
    ensures FormatNat(n)[0] == '0' <==> n == 0
  {
    if n >= 10 {
      ValueOfFormat(n / 10);
      var s := FormatNat(n);
      assert s[..|s| - 1] == FormatNat(n / 10);
    }
  }

  lemma {:induction false} FormatOfValue(s: string)
    requires s != [] && AllDigits(s) && (s[0] == '0' ==> |s| == 1)
    ensures FormatNat(ValueOf(s)) == s
  {
    var n := |s| - 1;
    if n > 0 {
      FormatOfValue(s[..n]);
      ValuePositive(s[..n]);
      assert s == s[..n] + [s[n]];
    } else {
      assert s[..0] == [];
    }
  }

  lemma {:induction false} ValuePositive(s: string)
    requires s != [] && AllDigits(s) && s[0] != '0'
    ensures ValueOf(s) > 0
  {
    if |s| > 1 {
      ValuePositive(s[..|s| - 1]);
    }
  }

  /** Parsing undoes formatting on every 64-bit integer. */
  lemma ParseFormat(n: int)
    requires MIN_INT64 <= n <= MAX_INT64
    ensures ParseInt(FormatInt(n)) == Some(n)
  {
    var a: nat := if n < 0 then -n else n;
    ValueOfFormat(a);
    if n < 0 {
      assert FormatInt(n)[1..] == FormatNat(a);
    } else {
      assert IsDigit(FormatNat(a)[0]);
    }
  }

  /** Formatting undoes parsing exactly on canonical text: only then does an id come back as it was. */
  lemma FormatParse(s: string)
    requires ParseInt(s).Some?
    ensures FormatInt(ParseInt(s).value) == s <==> Canonical(s)
  {
    if Canonical(s) {
      CanonicalFormats(s);
    }
    if FormatInt(ParseInt(s).value) == s {
      FormattedIsCanonical(ParseInt(s).value);
    }
  }

  lemma CanonicalFormats(s: string)
    requires ParseInt(s).Some? && Canonical(s)
    ensures FormatInt(ParseInt(s).value) == s
  {
    var digits := if s[0] == '-' then s[1..] else s;
    assert s[0] != '+' && ValueOf(digits) == if s[0] == '-' then -ParseInt(s).value else ParseInt(s).value;
    FormatOfValue(digits);
    if s[0] == '-' {
      ValuePositive(digits);
      assert s == "-" + digits;
    }
  }

  lemma FormattedIsCanonical(n: int)
    ensures Canonical(FormatInt(n))
  {
    ValueOfFormat(if n < 0 then -n else n);
    if n < 0 {
      assert FormatInt(n)[1..] == FormatNat(-n);
    } else {
      assert IsDigit(FormatInt(n)[0]);
    }
  }

  function Pow10(k: nat): nat {
    if k == 0 then 1 else 10 * Pow10(k - 1)
  }

  lemma {:induction false} FormatLength(n: nat, k: nat)
    requires k > 0 && n < Pow10(k)
    ensures |FormatNat(n)| <= k
  {
    if n >= 10 {
      FormatLength(n / 10, k - 1);
    }
  }

  lemma Powers()
    ensures Pow10(6) == 1_000_000 && Pow10(19) == 10_000_000_000_000_000_000
  {
    assert Pow10(2) == 100 && Pow10(4) == 100 * Pow10(2) && Pow10(6) == 100 * Pow10(4) && Pow10(8) == 100 * Pow10(6);
    assert Pow10(10) == 100 * Pow10(8) && Pow10(12) == 100 * Pow10(10) && Pow10(14) == 100 * Pow10(12);
    assert Pow10(16) == 100 * Pow10(14) && Pow10(18) == 100 * Pow10(16) && Pow10(19) == 10 * Pow10(18);
  }

  lemma Int64Length(n: int)
    requires MIN_INT64 <= n <= MAX_INT64
    ensures |FormatInt(n)| <= 20
  {
    Powers();
    FormatLength(if n < 0 then -n else n, 19);
  }

  lemma FormatIntInjective(m: int, n: int)
    requires FormatInt(m) == FormatInt(n)
    ensures m == n
  {
    var a: nat := if m < 0 then -m else m;
    var b: nat := if n < 0 then -n else n;
    ValueOfFormat(a);
    ValueOfFormat(b);
    if m < 0 {
      assert FormatInt(m)[0] == '-';
      assert n >= 0 ==> IsDigit(FormatInt(n)[0]);
      assert FormatInt(m)[1..] == FormatNat(a) && FormatInt(n)[1..] == FormatNat(b);
    } else {
      assert IsDigit(FormatInt(m)[0]);
    }
  }
}
