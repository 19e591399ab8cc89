/** The stored text of a time (formatTime in internal/store/sqlite/sqlite.go): RFC 3339 with up to
    nine fractional digits, trailing zeros dropped. Byte order of the texts is what ListJobs sorts by. */
module Timestamps {
  import opened Sorting
  import opened Decimal

  const SECOND: nat := 1_000_000_000

  /** The k-digit decimal text of a number below 10^k, leading zeros kept. */
  function Padded(n: nat, k: nat): (s: string)
    requires n < Pow10(k)
    ensures |s| == k
  {
    if k == 0 then "" else Padded(n / 10, k - 1) + [DigitChar(n % 10)]
  }

  /** The fractional digits: k of them, without trailing zeros. */
  function Trimmed(n: nat, k: nat): string
    requires n < Pow10(k)
  {
    if n == 0 then ""
    else if n % 10 == 0 then Trimmed(n / 10, k - 1)
    else Padded(n, k)
  }

  /** The text of the time `nanos` after the second whose text, without the zone, is `second`. */
  function Text(second: string, nanos: nat): string
    requires nanos < SECOND
  {
    if nanos == 0 then second + "Z" else second + "." + Fraction(nanos) + "Z"
  }

  function Fraction(nanos: nat): string
    requires nanos < SECOND
  {
    NinePlaces();
    Trimmed(nanos, 9)
  }

  lemma NinePlaces()
    ensures Pow10(9) == SECOND
  {
    assert Pow10(5) == 100_000;
  }

  lemma {:induction false} LessPrefix(p: string, a: string, b: string)
    ensures Less(p + a, p + b) <==> Less(a, b)
  {
    if p == "" {
      assert p + a == a && p + b == b;
    } else {
      LessPrefix(p[1..], a, b);
      assert (p + a)[1..] == p[1..] + a && (p + b)[1..] == p[1..] + b;
    }
  }

  /** Texts of different seconds, written with equally many characters, are ordered as the seconds. */
  lemma {:induction false} LessHead(a: string, b: string, x: string, y: string)
    requires |a| == |b| && Less(a, b)
    ensures Less(a + x, b + y)
  {
    assert (a + x)[0] == a[0] && (b + y)[0] == b[0];
    if a[0] == b[0] {
      LessHead(a[1..], b[1..], x, y);
      assert (a + x)[1..] == a[1..] + x && (b + y)[1..] == b[1..] + y;
    }
  }

  /** k digits compare as the numbers do. */
  lemma {:induction false} PaddedOrder(a: nat, b: nat, k: nat)
    requires a < b < Pow10(k)
    ensures Less(Padded(a, k), Padded(b, k))
  {
    if a / 10 == b / 10 {
      LessPrefix(Padded(a / 10, k - 1), [DigitChar(a % 10)], [DigitChar(b % 10)]);
    } else {
      PaddedOrder(a / 10, b / 10, k - 1);
      LessHead(Padded(a / 10, k - 1), Padded(b / 10, k - 1), [DigitChar(a % 10)], [DigitChar(b % 10)]);
    }
  }

  predicate Zeros(s: string) { forall i :: 0 <= i < |s| ==> s[i] == '0' }

  /** Dropping zeros: the padded digits are the trimmed ones and zeros, and all are digits. */
  lemma {:induction false} TrimmedIsPrefix(n: nat, k: nat)
    requires n < Pow10(k)
    ensures |Trimmed(n, k)| <= k && Trimmed(n, k) == Padded(n, k)[..|Trimmed(n, k)|]
    ensures Zeros(Padded(n, k)[|Trimmed(n, k)|..])
    ensures forall i :: 0 <= i < k ==> IsDigit(Padded(n, k)[i])
  {
    if k > 0 {
      TrimmedIsPrefix(n / 10, k - 1);
      var p := Padded(n / 10, k - 1);
      assert Padded(n, k) == p + [DigitChar(n % 10)];
      if n % 10 == 0 {
        assert Trimmed(n, k) == Trimmed(n / 10, k - 1);
        var t := |Trimmed(n, k)|;
        assert Padded(n, k)[t..] == p[t..] + ['0'];
        assert Padded(n, k)[..t] == p[..t];
      }
    }
  }

  /** Of two digit texts, each followed by a 'Z' (which is above all digits), the order is that of
      the zero-padded ones, unless the lesser is a prefix of the greater: then it is reversed. */
  lemma {:induction false} TrimmedOrder(s: string, t: string, x: string, y: string)
    requires |s + x| == |t + y| && Zeros(x) && Zeros(y) && Less(s + x, t + y)
    requires (forall i :: 0 <= i < |s| ==> IsDigit(s[i])) && (forall i :: 0 <= i < |t| ==> IsDigit(t[i]))
    ensures Less(s + "Z", t + "Z") <==> !(s <= t)
  {
    if s == "" {
      assert s + "Z" == "Z" && s + x == x;
      if t == "" {
        assert t + y == y;
        EqualZeros(x, y);
        LessStrict(x, y);
      }
    } else if t == "" {
      NotBelowZeros(s + x, y);
      assert t + y == y;
    } else {
      assert (s + "Z")[0] == s[0] && (t + "Z")[0] == t[0] && (s + x)[0] == s[0] && (t + y)[0] == t[0];
      if s[0] == t[0] {
        assert (s + x)[1..] == s[1..] + x && (t + y)[1..] == t[1..] + y;
        assert (s + "Z")[1..] == s[1..] + "Z" && (t + "Z")[1..] == t[1..] + "Z";
        TrimmedOrder(s[1..], t[1..], x, y);
        assert s == [s[0]] + s[1..] && t == [t[0]] + t[1..];
        assert s <= t <==> s[1..] <= t[1..];
      }
    }
  }

  lemma EqualZeros(x: string, y: string)
    requires Zeros(x) && Zeros(y) && |x| == |y|
    ensures x == y
  {
  }

  /** No text of digits of the same length is below zeros. */
  lemma {:induction false} NotBelowZeros(a: string, y: string)
    requires |a| == |y| && Zeros(y) && forall i :: 0 <= i < |a| ==> IsDigit(a[i])
    ensures !Less(a, y)
  {
    if y != "" {
      NotBelowZeros(a[1..], y[1..]);
    }
  }

  /** The k fractional digits of two numbers, each followed by a 'Z'. */
  lemma FractionOrder(a: nat, b: nat, k: nat)
    requires a < b < Pow10(k)
    ensures Less(Trimmed(a, k) + "Z", Trimmed(b, k) + "Z") <==> !(Trimmed(a, k) <= Trimmed(b, k))
  {
    var s, t := Trimmed(a, k), Trimmed(b, k);
    TrimmedIsPrefix(a, k);
    TrimmedIsPrefix(b, k);
    PaddedOrder(a, b, k);
    var x, y := Padded(a, k)[|s|..], Padded(b, k)[|t|..];
    assert s + x == Padded(a, k) && t + y == Padded(b, k);
    TrimmedOrder(s, t, x, y);
  }

  lemma Dotted(second: string, fraction: string)
    ensures second + "." + fraction + "Z" == (second + ".") + (fraction + "Z")
    ensures second + "." + fraction + "Z" == second + ("." + fraction + "Z")
  {
  }

  /** Two times of different seconds are stored in their order. */
  lemma SecondsInOrder(second: string, later: string, a: nat, b: nat)
    requires a < SECOND && b < SECOND && |second| == |later| && Less(second, later)
    ensures Less(Text(second, a), Text(later, b))
  {
    if a > 0 {
      Dotted(second, Fraction(a));
    }
    if b > 0 {
      Dotted(later, Fraction(b));
    }
    LessHead(second, later, if a == 0 then "Z" else "." + Fraction(a) + "Z", if b == 0 then "Z" else "." + Fraction(b) + "Z");
  }

  /** Two times of the same second are if and only if the fractional digits of the later one do not
      begin with those of the earlier one, which are none for a whole second. */
  lemma SecondInOrder(second: string, a: nat, b: nat)
    requires a < b < SECOND
    ensures Less(Text(second, a), Text(second, b)) <==> a != 0 && !(Fraction(a) <= Fraction(b))
  {
    NinePlaces();
    var s, t := Fraction(a), Fraction(b);
    Dotted(second, t);
    if a == 0 {
      LessPrefix(second, "Z", "." + t + "Z");
    } else {
      Dotted(second, s);
      LessPrefix(second + ".", s + "Z", t + "Z");
      FractionOrder(a, b, 9);
    }
  }
}
