/** Decimal digit strings: printing, reading, padding and stripping zeros. */
module Digits {

  predicate IsDigit(c: char) { '0' <= c <= '9' }

  predicate AllDigits(s: string)
  {
    forall i :: 0 <= i < |s| ==> IsDigit(s[i])
  }

  function DigitOf(d: nat): (c: char)
    requires d < 10
    ensures IsDigit(c) && ValueOf(c) == d
  {
    ('0' as int + d) as char
  }

  function ValueOf(c: char): (d: nat)
    requires IsDigit(c)
    ensures d < 10
  {
    c as int - '0' as int
  }

  function Pow10(n: nat): (p: nat)
    ensures p >= 1
  {
    if n == 0 then 1 else 10 * Pow10(n - 1)
  }

  /** `toString` of a non-negative bigint. */
  function Print(n: nat): (s: string)
    ensures s != [] && AllDigits(s)
  {
    if n < 10 then [DigitOf(n)] else Print(n / 10) + [DigitOf(n % 10)]
  }

  /** `BigInt` of a digit string; the empty string reads as zero. */
  function Read(s: string): nat
    requires AllDigits(s)
  {
    if s == [] then 0 else Read(s[..|s| - 1]) * 10 + ValueOf(s[|s| - 1])
  }

  function Zeros(n: nat): (s: string)
    ensures |s| == n && AllDigits(s) && forall i :: 0 <= i < n ==> s[i] == '0'
  {
    seq(n, _ => '0')
  }

  function PadStart(s: string, n: nat): string
  {
    if |s| < n then Zeros(n - |s|) + s else s
  }

  function PadEnd(s: string, n: nat): string
  {
    if |s| < n then s + Zeros(n - |s|) else s
  }

  function StripZeros(s: string): string
  {
    if s != [] && s[|s| - 1] == '0' then StripZeros(s[..|s| - 1]) else s
  }

  /** No leading zero, unless the number is zero itself. */
  predicate Canonical(s: string)
  {
    s != [] && AllDigits(s) && (|s| > 1 ==> s[0] != '0')
  }

  // ---------------------------------------------------------------------------
  // Printing and reading are inverse
  // ---------------------------------------------------------------------------

  lemma {:induction false} ReadPrint(n: nat)
    ensures Read(Print(n)) == n
  {
    if n < 10 {
      assert Read([DigitOf(n)]) == Read([]) * 10 + n;
    } else {
      var s := Print(n);
      assert s[..|s| - 1] == Print(n / 10);
      ReadPrint(n / 10);
    }
  }

  lemma {:induction false} PrintCanonical(n: nat)
    ensures Canonical(Print(n)) && (n > 0 ==> Print(n)[0] != '0')
  {
    if n >= 10 {
      PrintCanonical(n / 10);
    }
  }

  lemma {:induction false} ReadAppend(a: string, b: string)
    requires AllDigits(a) && AllDigits(b)
    ensures Read(a + b) == Read(a) * Pow10(|b|) + Read(b)
  {
    if b == [] {
      assert a + b == a;
    } else {
      var c := b[..|b| - 1];
      assert (a + b)[..|a + b| - 1] == a + c;
      ReadAppend(a, c);
      Shift(Read(a), Pow10(|c|), Read(c), ValueOf(b[|b| - 1]));
    }
  }

  lemma Shift(x: nat, p: nat, c: nat, v: nat)
    ensures (x * p + c) * 10 + v == x * (10 * p) + (c * 10 + v)
  {
    assert x * (10 * p) == 10 * (x * p);
  }

  lemma {:induction false} ReadZeros(n: nat)
    ensures Read(Zeros(n)) == 0
  {
    if n > 0 {
      assert Zeros(n)[..n - 1] == Zeros(n - 1);
      ReadZeros(n - 1);
    }
  }

  lemma ReadPadStart(s: string, n: nat)
    requires AllDigits(s)
    ensures AllDigits(PadStart(s, n)) && Read(PadStart(s, n)) == Read(s)
  {
    if |s| < n {
      ReadAppend(Zeros(n - |s|), s);
      ReadZeros(n - |s|);
    }
  }

  lemma {:induction false} ReadBound(s: string)
    requires AllDigits(s)
    ensures Read(s) < Pow10(|s|)
  {
    if s != [] {
      ReadBound(s[..|s| - 1]);
    }
  }

  /** A number below `10^d` prints in at most `d` digits. */
  lemma {:induction false} PrintLength(n: nat, d: nat)
    requires 0 < d && n < Pow10(d)
    ensures |Print(n)| <= d
  {
    if n >= 10 {
      assert Pow10(1) == 10 * Pow10(0);
      PrintLength(n / 10, d - 1);
    }
  }

  lemma {:induction false} CanonicalBound(s: string)
    requires Canonical(s) && |s| > 1
    ensures Read(s) >= 10
  {
    if |s| == 2 {
      assert s[..1] == [s[0]] && Read(s[..1]) == Read([]) * 10 + ValueOf(s[0]);
    } else {
      CanonicalBound(s[..|s| - 1]);
    }
  }

  /** Canonical digit strings are what printing produces. */
  lemma {:induction false} PrintRead(s: string)
    requires Canonical(s)
    ensures Print(Read(s)) == s
  {
    if |s| == 1 {
      assert s[..0] == [] && Read(s) == ValueOf(s[0]) && s == [s[0]];
    } else {
      var front := s[..|s| - 1];
      CanonicalBound(s);
      PrintRead(front);
      assert Read(s) / 10 == Read(front) && Read(s) % 10 == ValueOf(s[|s| - 1]);
      assert s == front + [s[|s| - 1]];
    }
  }

  lemma ReadLeadingZero(s: string)
    requires AllDigits(s) && s != [] && s[0] == '0'
    ensures Read(s) == Read(s[1..])
  {
    assert s == ['0'] + s[1..];
    ReadAppend(['0'], s[1..]);
    assert Read(['0']) == Read([]) * 10;
  }

  /** Any digit string is its value printed and padded back to length. */
  lemma {:induction false} PadPrintRead(s: string)
    requires AllDigits(s) && s != []
    ensures PadStart(Print(Read(s)), |s|) == s
    decreases |s|
  {
    if |s| == 1 || s[0] != '0' {
      PrintRead(s);
    } else {
      var rest := s[1..];
      ReadLeadingZero(s);
      PadPrintRead(rest);
      ReadBound(rest);
      PrintLength(Read(rest), |rest|);
      assert s == ['0'] + rest;
    }
  }

  // ---------------------------------------------------------------------------
  // Stripping trailing zeros
  // ---------------------------------------------------------------------------

  lemma {:induction false} StripThenPad(s: string)
    ensures |StripZeros(s)| <= |s| && PadEnd(StripZeros(s), |s|) == s
    ensures AllDigits(s) ==> AllDigits(StripZeros(s))
  {
    if s != [] && s[|s| - 1] == '0' {
      var front := s[..|s| - 1];
      StripThenPad(front);
      var t := StripZeros(front);
      assert s == front + ['0'];
      assert t + Zeros(|s| - |t|) == (t + Zeros(|front| - |t|)) + ['0'];
    }
  }

  lemma {:induction false} StripNonzero(s: string)
    requires AllDigits(s) && Read(s) > 0
    ensures StripZeros(s) != [] && AllDigits(StripZeros(s)) && Read(StripZeros(s)) > 0
  {
    if s[|s| - 1] == '0' {
      StripNonzero(s[..|s| - 1]);
    }
  }

  lemma {:induction false} Pow10Add(a: nat, b: nat)
    ensures Pow10(a + b) == Pow10(a) * Pow10(b)
  {
    if a > 0 {
      Pow10Add(a - 1, b);
    }
  }
}
