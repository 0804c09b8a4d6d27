/**
 * JavaScript's `Number(text)` restricted to integers: surrounding white
 * space is ignored, the empty string is 0, an optional sign may precede
 * decimal digits, and any other text, including the binary, octal and
 * hexadecimal literals JavaScript also accepts, is `NaN` here.
 */
module JsNumber {
  import opened Text

  datatype Number = Int(value: int) | NaN

  predicate IsDigit(c: char) { '0' <= c <= '9' }

  predicate AllDigits(s: string) {
    forall i :: 0 <= i < |s| ==> IsDigit(s[i])
  }

  /** The value of a string of decimal digits, most significant first. */
  function DigitsValue(ds: string): (n: nat)
    requires AllDigits(ds)
  {
    if |ds| == 0 then 0
    else DigitsValue(ds[..|ds| - 1]) * 10 + (ds[|ds| - 1] as int - '0' as int)
  }

  /** The number denoted by `s`, after trimming, as `Number(s)` reads it. */
  function ParseTrimmed(t: string): Number {
    if t == "" then Int(0)
    else if t[0] == '-' || t[0] == '+' then
      if |t| >= 2 && AllDigits(t[1..]) then
        var magnitude: int := DigitsValue(t[1..]);
        Int(if t[0] == '-' then -magnitude else magnitude)
      else NaN
    else if AllDigits(t) then Int(DigitsValue(t))
    else NaN
  }

  /** `Number(s)`. */
  function FromString(s: string): (r: Number)
    ensures (forall i :: 0 <= i < |s| ==> IsSpace(s[i])) ==> r == Int(0)
    ensures r.Int? ==> var t := Trim(s);
      forall i :: 0 <= i < |t| ==> IsDigit(t[i]) || (i == 0 && (t[0] == '-' || t[0] == '+'))
  {
    ParseTrimmed(Trim(s))
  }

  function DigitChar(d: nat): (c: char)
    requires d < 10
    ensures IsDigit(c) && c as int - '0' as int == d
  {
    ('0' as int + d) as char
  }

  /** Decimal digits of `n` without leading zeros. */
  function ShowNat(n: nat): (s: string)
    ensures |s| >= 1 && AllDigits(s)
  {
    if n < 10 then [DigitChar(n)] else ShowNat(n / 10) + [DigitChar(n % 10)]
  }

  /** `String(n)`: the decimal rendering of an integer. */
  function Show(n: int): (s: string)
    ensures |s| >= 1
    ensures forall i :: 0 <= i < |s| ==> IsDigit(s[i]) || s[i] == '-'
  {
    if n < 0 then "-" + ShowNat(-n) else ShowNat(n)
  }

  lemma {:induction false} ShowNatValue(n: nat)
    ensures DigitsValue(ShowNat(n)) == n
  {
    if n >= 10 {
      var s := ShowNat(n);
      assert s[..|s| - 1] == ShowNat(n / 10);
      ShowNatValue(n / 10);
    }
  }

  lemma ParseShow(n: int)
    ensures ParseTrimmed(Show(n)) == Int(n)
  {
    ShowNatValue(if n < 0 then -n else n);
    if n < 0 {
      var s := Show(n);
      assert s[0] == '-' && s[1..] == ShowNat(-n);
    } else {
      assert IsDigit(Show(n)[0]);
    }
  }

  /** Reading back a rendered integer gives the integer: `Number(String(n)) == n`. */
  lemma ShowRoundTrip(n: int)
    ensures FromString(Show(n)) == Int(n)
  {
    var s := Show(n);
    TrimNoSpace(s);
    ParseShow(n);
  }
}
