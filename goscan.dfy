/**
  `toInt` of the Go backend: `fmt.Sscanf(s, "%d", &i)` into a zero-initialised
  `int`. The `%d` verb skips leading spaces (a newline stops it), accepts one
  optional sign and then at least one decimal digit, and reads the longest run
  of digits; whatever follows is ignored. When no digit is found or the value
  does not fit a 64-bit `int`, Sscanf reports an error that toInt discards, so
  the variable keeps its zero value.
*/
module GoScan {
  import opened Wrappers

  const MinInt64: int := -0x8000_0000_0000_0000
  const MaxInt64: int := 0x7FFF_FFFF_FFFF_FFFF

  /** The code points of Go's fmt `isSpace` table. */
  predicate IsGoSpace(c: char) {
    ('\t' <= c <= '\r') || c == ' ' || c == '\U{0085}' || c == '\U{00A0}' || c == '\U{1680}'
    || ('\U{2000}' <= c <= '\U{200A}') || c == '\U{2028}' || c == '\U{2029}'
    || c == '\U{202F}' || c == '\U{205F}' || c == '\U{3000}'
  }

  predicate IsDigit(c: char) {
    '0' <= c <= '9'
  }

  predicate AllDigits(s: string) {
    forall i :: 0 <= i < |s| ==> IsDigit(s[i])
  }

  /** Leading spaces skipped by the scanner; a newline is not skipped (Sscanf treats it as the end of input). */
  function SkipSpace(s: string): (r: string)
    ensures |r| <= |s| && r == s[|s| - |r|..]
    ensures r == [] || !IsGoSpace(r[0]) || r[0] == '\n'
  {
    if s != [] && IsGoSpace(s[0]) && s[0] != '\n' then SkipSpace(s[1..]) else s
  }

  /** The longest prefix of s made of decimal digits. */
  function DigitRun(s: string): (r: string)
    ensures |r| <= |s| && r == s[..|r|]
    ensures AllDigits(r)
    ensures |r| == |s| || !IsDigit(s[|r|])
  {
    if s != [] && IsDigit(s[0]) then [s[0]] + DigitRun(s[1..]) else []
  }

  /** The value of a string of decimal digits, most significant first. */
  function DigitsValue(ds: string): nat
    requires AllDigits(ds)
  {
    if ds == [] then 0 else DigitsValue(ds[..|ds| - 1]) * 10 + (ds[|ds| - 1] as int - '0' as int)
  }

  /** The text after one optional sign character. */
  function AfterSign(t: string): (r: string)
    ensures |r| <= |t|
  {
    if t != [] && (t[0] == '-' || t[0] == '+') then t[1..] else t
  }

  /** `strconv.ParseInt(sign + digits, 10, 64)`: None when there are no digits or the value overflows. */
  function Signed(negative: bool, ds: string): (r: Option<int>)
    requires AllDigits(ds)
    ensures r.Some? ==> MinInt64 <= r.value <= MaxInt64
    ensures r.Some? ==> ds != [] && (if negative then r.value <= 0 else r.value >= 0)
  {
    if ds == [] then None
    else
      var v: int := if negative then 0 - DigitsValue(ds) else DigitsValue(ds);
      if MinInt64 <= v <= MaxInt64 then Some(v) else None
  }

  /** The `%d` verb: Some(value) on success, None when Sscanf reports an error. */
  function ScanInt(s: string): (r: Option<int>)
    ensures r.Some? ==> MinInt64 <= r.value <= MaxInt64
  {
    var t := SkipSpace(s);
    Signed(t != [] && t[0] == '-', DigitRun(AfterSign(t)))
  }

  /** `toInt` (main.go): the scanned value, or 0 when scanning fails. */
  function ToInt(s: string): (r: int)
    ensures MinInt64 <= r <= MaxInt64
    ensures ScanInt(s).None? ==> r == 0
    ensures ScanInt(s).Some? ==> r == ScanInt(s).value
  {
    ScanInt(s).GetOr(0)
  }

  /** Decimal text of a natural number, as `strconv.Itoa` writes it. */
  function FormatNat(n: nat): (r: string)
    ensures r != [] && AllDigits(r)
  {
    var d := ['0' + (n % 10) as char];
    if n < 10 then d else FormatNat(n / 10) + d
  }

  /** Decimal text of an integer with a leading '-' for negatives. */
  function FormatInt(n: int): (r: string)
    ensures r != []
  {
    if n < 0 then "-" + FormatNat(-n) else FormatNat(n)
  }

  lemma {:induction false} DigitsValueFormat(n: nat)
    ensures DigitsValue(FormatNat(n)) == n
  {
    var f := FormatNat(n);
    if n >= 10 {
      DigitsValueFormat(n / 10);
      assert f[..|f| - 1] == FormatNat(n / 10);
    }
  }

  lemma {:induction false} DigitRunPrefix(a: string, b: string)
    requires AllDigits(a)
    requires b == [] || !IsDigit(b[0])
    ensures DigitRun(a + b) == a
  {
    if a == [] {
      assert a + b == b;
    } else {
      assert (a + b)[1..] == a[1..] + b;
      DigitRunPrefix(a[1..], b);
    }
  }

  /** Scanning an optional minus sign, digits and then non-digit text reads exactly those digits. */
  lemma {:induction false} ScanSignedDigits(negative: bool, ds: string, rest: string)
    requires ds != [] && AllDigits(ds)
    requires rest == [] || !IsDigit(rest[0])
    ensures ScanInt(if negative then "-" + (ds + rest) else ds + rest) == Signed(negative, ds)
  {
    var body := ds + rest;
    var s := if negative then "-" + body else body;
    DigitRunPrefix(ds, rest);
    assert body[0] == ds[0] && IsDigit(body[0]);
    if negative {
      assert s[0] == '-' && s[1..] == body;
    }
    assert !IsGoSpace(s[0]);
    assert SkipSpace(s) == s;
    assert AfterSign(s) == body;
  }

  lemma SignFirst(f: string, rest: string)
    ensures ("-" + f) + rest == "-" + (f + rest)
  {
    assert forall k :: 0 <= k < 1 + |f| + |rest| ==> (("-" + f) + rest)[k] == ("-" + (f + rest))[k];
  }

  /** Round trip: scanning the decimal text of a 64-bit value gives the value back, whatever non-digit text follows. */
  lemma ToIntFormat(n: int, rest: string)
    requires MinInt64 <= n <= MaxInt64
    requires rest == [] || !IsDigit(rest[0])
    ensures ToInt(FormatInt(n) + rest) == n
  {
    var negative := n < 0;
    var m: nat := if negative then -n else n;
    var f := FormatNat(m);
    assert Signed(negative, f) == Some(n) by {
      DigitsValueFormat(m);
    }
    var text := if negative then "-" + (f + rest) else f + rest;
    assert FormatInt(n) + rest == text by {
      if negative {
        SignFirst(f, rest);
      }
    }
    assert ScanInt(text) == Some(n) by {
      ScanSignedDigits(negative, f, rest);
    }
  }

  /** A value that does not start (after spaces) with a sign or a digit reads as 0. */
  lemma NonNumericIsZero(s: string)
    requires var t := SkipSpace(s); t == [] || !(IsDigit(t[0]) || t[0] == '-' || t[0] == '+')
    ensures ToInt(s) == 0
  {
  }

  /** A string of decimal digits alone reads as its value, when that fits 64 bits. */
  lemma ToIntDigits(ds: string)
    requires ds != [] && AllDigits(ds) && DigitsValue(ds) <= MaxInt64
    ensures ToInt(ds) == DigitsValue(ds)
  {
    assert ds + "" == ds;
    assert ScanInt(ds) == Signed(false, ds) by {
      ScanSignedDigits(false, ds, "");
    }
  }

  /** The defaults of getTodos: "100" reads as 100 and "0" as 0. */
  lemma DefaultsRead()
    ensures ToInt("100") == 100 && ToInt("0") == 0
  {
    var hundred, zero := "100", "0";
    assert AllDigits(hundred) && AllDigits(zero);
    assert DigitsValue(hundred) == 100 by {
      assert hundred[..2] == "10" && "10"[..1] == "1" && "1"[..0] == "";
    }
    assert DigitsValue(zero) == 0 by {
      assert zero[..0] == "";
    }
    ToIntDigits(hundred);
    ToIntDigits(zero);
  }
}
