/** Decimal text of integers: strconv.FormatInt, and the pod watcher's own itoa. */
module Decimal {
  import opened Options

  const MIN_INT64: int := -0x8000_0000_0000_0000
  const MAX_INT64: int := 0x7fff_ffff_ffff_ffff

  predicate IsDigit(c: char) { '0' <= c <= '9' }

  predicate IsDigits(s: string) { s != "" && forall i :: 0 <= i < |s| ==> IsDigit(s[i]) }

  function DigitChar(d: int): char
    requires 0 <= d < 10
  {
    '0' + d as char
  }

  /** Decimal digits of a natural number, no leading zeros. */
  function FormatNat(n: nat): (s: string)
    ensures IsDigits(s)
  {
    if n < 10 then [DigitChar(n)] else FormatNat(n / 10) + [DigitChar(n % 10)]
  }

  function FormatInt(v: int): string {
    if v < 0 then "-" + FormatNat(-v) else FormatNat(v)
  }

  /** The value of a digit string, most significant digit first. */
  function NatValue(s: string): nat
    requires forall i :: 0 <= i < |s| ==> IsDigit(s[i])
  {
    if s == "" then 0
    else
      assert IsDigit(s[|s| - 1]);
      NatValue(s[..|s| - 1]) * 10 + (s[|s| - 1] as int - '0' as int)
  }

  /** An optionally signed decimal number of any size. */
  function ParseInt(s: string): Option<int> {
    if s != "" && (s[0] == '-' || s[0] == '+') then
      if IsDigits(s[1..]) then Some(NatValue(s[1..]) * (if s[0] == '-' then -1 else 1)) else None
    else if IsDigits(s) then Some(NatValue(s)) else None
  }

  /** Digits, or digits behind one sign, and nothing else. */
  lemma ParseIntExact(s: string)
    ensures IsDigits(s) ==>
              && ParseInt(s) == ParseInt("+" + s) == Some(NatValue(s))
              && var v: int := NatValue(s); ParseInt("-" + s) == Some(-v)
    ensures ParseInt(s).Some? ==> exists d :: IsDigits(d) && (s == d || s == "+" + d || s == "-" + d)
  {
    if IsDigits(s) {
      assert ("+" + s)[1..] == s && ("-" + s)[1..] == s && IsDigit(s[0]);
    } else if ParseInt(s).Some? {
      assert s == [s[0]] + s[1..] && IsDigits(s[1..]);
    }
  }

  lemma {:induction false} FormatNatValue(n: nat)
    ensures NatValue(FormatNat(n)) == n
  {
    if n >= 10 {
      FormatNatValue(n / 10);
      assert FormatNat(n)[..|FormatNat(n)| - 1] == FormatNat(n / 10);
    }
  }

  /** Parsing undoes printing. */
  lemma FormatParse(v: int)
    ensures ParseInt(FormatInt(v)) == Some(v)
  {
    FormatNatValue(if v < 0 then -v else v);
    if v < 0 {
      assert FormatInt(v)[1..] == FormatNat(-v);
    } else {
      assert IsDigit(FormatInt(v)[0]);
    }
  }

  /** Two's complement negation in 64 bits: the least value is its own negation. */
  function Negate64(v: int): int {
    if v == MIN_INT64 then v else -v
  }

  function Pow10(k: nat): (r: nat)
    ensures r >= 1
  {
    if k == 0 then 1 else 10 * Pow10(k - 1)
  }

  /** A number below 10^k has at most k digits. */
  lemma {:induction false} DigitCount(n: nat, k: nat)
    requires 1 <= k && n < Pow10(k)
    ensures |FormatNat(n)| <= k
  {
    if n >= 10 {
      DigitCount(n / 10, k - 1);
    }
  }

  lemma NineteenDigits(n: nat)
    requires n <= MAX_INT64
    ensures |FormatNat(n)| <= 19
  {
    assert Pow10(6) == 1_000_000;
    assert Pow10(12) == 1_000_000_000_000;
    DigitCount(n, 19);
  }

  /** What is left to print: nothing once the number is used up. */
  function Rest(n: nat): string { if n == 0 then "" else FormatNat(n) }

  lemma LastDigit(n: nat, rest: nat, last: char, done: string)
    requires n > 0 && rest == n / 10 && last == DigitChar(n % 10)
    ensures |Rest(n) + done| > |done| && Rest(n) + done == Rest(rest) + ([last] + done)
  {
    assert Rest(n) == Rest(rest) + [last];
  }

  /** The digit loop of itoa: fills the 20-byte buffer from its end and leaves room for a sign. */
  method WriteDigits(buf: array<char>, v: nat) returns (i: nat)
    requires buf.Length == 20 && 0 < v <= MAX_INT64
    modifies buf
    ensures 1 <= i <= 20 && buf[i..] == FormatNat(v)
  {
    i := 20;
    var n := v;
    ghost var done, text := "", FormatNat(v);
    NineteenDigits(v);
    while n > 0
      invariant 1 <= i <= 20 && |done| == 20 - i
      invariant Rest(n) + done == text
      invariant buf[i..] == done
      decreases n
    {
      var rest, last := n / 10, DigitChar(n % 10);
      LastDigit(n, rest, last, done);
      i := i - 1;
      buf[i] := last;
      done := [last] + done;
      n := rest;
    }
  }

  /** podwatch.go itoa. The one value whose negation overflows prints as a bare sign. */
  method Itoa(v: int) returns (s: string)
    requires MIN_INT64 <= v <= MAX_INT64
    ensures s == if v == MIN_INT64 then "-" else FormatInt(v)
  {
    if v == 0 {
      return "0";
    }
    var n := if v < 0 then Negate64(v) else v;
    var buf := new char[20](_ => '0');
    var i := 20;
    if n > 0 {
      i := WriteDigits(buf, n);
    }
    if v < 0 {
      i := i - 1;
      ghost var digits := buf[i + 1..];
      buf[i] := '-';
      assert buf[i..] == "-" + digits;
    }
    s := buf[i..];
  }

  /** The printed exit code reads back as the value, except for the least 64-bit value. */
  lemma ItoaReadsBack(v: int)
    requires MIN_INT64 <= v <= MAX_INT64
    ensures ParseInt(if v == MIN_INT64 then "-" else FormatInt(v)) == Some(v) <==> v != MIN_INT64
  {
    if v != MIN_INT64 {
      FormatParse(v);
    }
  }
}
