/**
 Token amounts as text: the fixed-point printer and parser, the exact amount shown in an
 input box, and the locale-aware parser that reads it back.
 */
module Amounts {
  import opened Arithmetic
  import opened Digits

  const MAX_DECIMALS := 77

  datatype Parsed = Amount(value: nat) | Thrown

  datatype Printed = Text(text: string) | PrintThrown

  datatype ParseError = Malformed | Empty | Negative | Overflow

  datatype InputResult = Ok(value: nat) | Err(reason: ParseError)

  /** Where the first dot is, or the length when there is none. */
  function DotAt(s: string): (k: nat)
    ensures k <= |s| && (k < |s| ==> s[k] == '.') && forall i :: 0 <= i < k ==> s[i] != '.'
  {
    if s == [] || s[0] == '.' then 0
    else
      assert forall i :: 0 < i < |s| ==> s[i] == s[1..][i - 1];
      1 + DotAt(s[1..])
  }

  /** The part before the dot. */
  function Whole(s: string): string { s[..DotAt(s)] }

  /** The part after the dot, empty when there is no dot. */
  function Fraction(s: string): string { if DotAt(s) < |s| then s[DotAt(s) + 1..] else [] }

  /** Digits, then optionally a dot and more digits. */
  predicate IsDecimal(s: string)
  {
    && Whole(s) != [] && AllDigits(Whole(s))
    && (DotAt(s) < |s| ==> Fraction(s) != [] && AllDigits(Fraction(s)))
  }

  /** The same, without superfluous leading zeros. */
  predicate IsCanonicalDecimal(s: string)
  {
    IsDecimal(s) && Canonical(Whole(s))
  }

  /** The value of a decimal text in units of `10^-decimals`. */
  function Scaled(s: string, decimals: nat): nat
    requires IsDecimal(s) && |Fraction(s)| <= decimals
  {
    Read(Whole(s)) * Pow10(decimals) + Read(PadEnd(Fraction(s), decimals))
  }

  lemma SplitByScale(v: nat, scale: nat)
    requires scale > 0
    ensures v / scale >= 0 && v / scale * scale + v % scale == v && 0 <= v % scale < scale
  {
  }

  /** Whole tokens in an amount. */
  function Units(v: nat, decimals: nat): (q: nat)
  {
    SplitByScale(v, Pow10(decimals));
    v / Pow10(decimals)
  }

  /** What is left below one token. */
  function Dust(v: nat, decimals: nat): (r: nat)
    ensures r < Pow10(decimals) && Units(v, decimals) * Pow10(decimals) + r == v
  {
    SplitByScale(v, Pow10(decimals));
    v % Pow10(decimals)
  }

  // ---------------------------------------------------------------------------
  // Fixed-point units
  // ---------------------------------------------------------------------------

  function FormatUnits(amount: nat, decimals: int): Printed
  {
    if !(0 <= decimals <= MAX_DECIMALS) then PrintThrown
    else if decimals == 0 then Text(Print(Units(amount, decimals)))
    else Text(Print(Units(amount, decimals)) + "." + PadStart(Print(Dust(amount, decimals)), decimals))
  }

  function ParseUnits(value: string, decimals: int): Parsed
  {
    if !(0 <= decimals <= MAX_DECIMALS) then Thrown
    else if !IsCanonicalDecimal(value) then Thrown
    else if |Fraction(value)| > decimals then Thrown
    else Amount(Scaled(value, decimals))
  }

  lemma DotIn(whole: string, frac: string)
    requires AllDigits(whole)
    ensures var s := whole + "." + frac; DotAt(s) == |whole| && Whole(s) == whole && Fraction(s) == frac
  {
    var s := whole + "." + frac;
    assert s[|whole|] == '.';
    assert DotAt(s) == |whole| by {
      assert forall i :: 0 <= i < |whole| ==> s[i] == whole[i];
    }
  }

  lemma NoDotIn(whole: string)
    requires AllDigits(whole)
    ensures DotAt(whole) == |whole| && Whole(whole) == whole && Fraction(whole) == []
  {
    assert whole[..|whole|] == whole;
  }

  /** Printing then parsing is the identity, through padding and digit strings. */
  lemma ParseFormat(v: nat, decimals: int)
    ensures FormatUnits(v, decimals).Text? <==> 0 <= decimals <= MAX_DECIMALS
    ensures FormatUnits(v, decimals).Text? ==> ParseUnits(FormatUnits(v, decimals).text, decimals) == Amount(v)
  {
    if 0 <= decimals <= MAX_DECIMALS {
      var q, r := Units(v, decimals), Dust(v, decimals);
      PrintCanonical(q);
      ReadPrint(q);
      if decimals == 0 {
        NoDotIn(Print(q));
        assert PadEnd([], 0) == [];
      } else {
        PaddedDust(r, decimals);
        DotIn(Print(q), PadStart(Print(r), decimals));
      }
    }
  }

  lemma PaddedDust(r: nat, decimals: nat)
    requires r < Pow10(decimals) && 0 < decimals
    ensures var f := PadStart(Print(r), decimals);
      |f| == decimals && AllDigits(f) && Read(f) == r && PadEnd(f, decimals) == f
  {
    PrintLength(r, decimals);
    ReadPadStart(Print(r), decimals);
    ReadPrint(r);
  }

  /** What a whole part and a fraction are worth, in units of `10^-decimals`. */
  function Worth(w: string, f: string, decimals: nat): nat
    requires AllDigits(w) && AllDigits(f) && |f| <= decimals
  {
    Read(w) * Pow10(decimals) + Read(f) * Pow10(decimals - |f|)
  }

  /** A text is read for its whole part in tokens and its fraction in parts of one, unless that has too many digits. */
  lemma ParsesText(w: string, f: string, decimals: int)
    requires Canonical(w) && AllDigits(f)
    ensures var s := if f == [] then w else w + "." + f;
      ParseUnits(s, decimals) ==
        if 0 <= decimals <= MAX_DECIMALS && |f| <= decimals then Amount(Worth(w, f, decimals)) else Thrown
  {
    if f == [] {
      NoDotIn(w);
    } else {
      DotIn(w, f);
    }
    if 0 <= decimals && |f| <= decimals {
      PadEndReads(f, decimals);
    }
  }

  /** And parsing then printing restores the text, its fraction padded to full length. */
  lemma FormatParse(s: string, decimals: int)
    requires ParseUnits(s, decimals).Amount?
    ensures FormatUnits(ParseUnits(s, decimals).value, decimals) ==
      Text(if decimals == 0 then Whole(s) else Whole(s) + "." + PadEnd(Fraction(s), decimals))
  {
    var frac, v := PadEnd(Fraction(s), decimals), ParseUnits(s, decimals).value;
    ReadBound(frac);
    SplitUnique(Units(v, decimals), Dust(v, decimals), Read(Whole(s)), Read(frac), Pow10(decimals));
    PrintRead(Whole(s));
    if decimals > 0 {
      PadPrintRead(frac);
    }
  }

  lemma SplitUnique(q: nat, r: nat, q': nat, r': nat, scale: nat)
    requires r < scale && r' < scale && q * scale + r == q' * scale + r'
    ensures q == q' && r == r'
  {
    assert (q - q') * scale == r' - r;
    BelowScale(q - q', scale, r' - r);
  }

  lemma BelowScale(d: int, scale: nat, x: int)
    requires d * scale == x && 0 - scale < x < scale
    ensures d == 0
  {
  }

  // ---------------------------------------------------------------------------
  // The amount box
  // ---------------------------------------------------------------------------

  /** The exact amount, without trailing zeros; nothing for a non-positive one. */
  function WeiToAmountInput(value: int, decimals: nat): string
  {
    if value <= 0 then ""
    else
      if Dust(value, decimals) == 0 then Print(Units(value, decimals))
      else Print(Units(value, decimals)) + "." + StripZeros(PadStart(Print(Dust(value, decimals)), decimals))
  }

  /** The characters `trim` removes. */
  predicate IsSpace(c: char)
  {
    || '\U{9}' <= c <= '\U{D}' || c == ' ' || c == '\U{A0}' || c == '\U{1680}' || '\U{2000}' <= c <= '\U{200A}'
    || c == '\U{2028}' || c == '\U{2029}' || c == '\U{202F}' || c == '\U{205F}' || c == '\U{3000}' || c == '\U{FEFF}'
  }

  function Trim(s: string): string
    decreases |s|
  {
    if s == [] then []
    else if IsSpace(s[0]) then Trim(s[1..])
    else if IsSpace(s[|s| - 1]) then Trim(s[..|s| - 1])
    else s
  }

  /** `split(group).join("")`. */
  function Without(s: string, group: char): string
  {
    if s == [] then [] else (if s[0] == group then [] else [s[0]]) + Without(s[1..], group)
  }

  /** `replace(decimal, ".")`: the first occurrence only. */
  function DotFor(s: string, decimal: char): string
  {
    if s == [] then [] else if s[0] == decimal then ['.'] + s[1..] else [s[0]] + DotFor(s[1..], decimal)
  }

  /** A locale contributes its decimal and grouping separators. */
  function ParseDecimalInput(raw: string, decimals: int, decimal: char, group: char): InputResult
  {
    if !(0 <= decimals <= MAX_DECIMALS) then Err(Malformed)
    else
      var trimmed := Trim(raw);
      if trimmed == "" then Err(Empty)
      else if trimmed[0] == '-' then Err(Negative)
      else
        var ungrouped := Without(trimmed, group);
        var normalized := if decimal != '.' then DotFor(ungrouped, decimal) else ungrouped;
        if !IsCanonicalDecimal(normalized) && normalized != "0" && !IsDecimal(normalized) then Err(Malformed)
        else if !IsDecimal(normalized) then Err(Malformed)
        else if |Fraction(normalized)| > decimals then Err(Overflow)
        else Ok(Scaled(normalized, decimals))
  }

  lemma {:induction false} WithoutAbsent(s: string, c: char)
    requires c !in s
    ensures Without(s, c) == s
  {
    if s != [] {
      WithoutAbsent(s[1..], c);
      assert s == [s[0]] + s[1..];
    }
  }

  lemma {:induction false} DotForAbsent(s: string, c: char)
    requires c !in s
    ensures DotFor(s, c) == s
  {
    if s != [] {
      DotForAbsent(s[1..], c);
      assert s == [s[0]] + s[1..];
    }
  }

  /** Text made of digits and dots passes through unless the dot is the grouping separator. */
  lemma NormalizesTo(s: string, t: string, decimals: nat, decimal: char, group: char)
    requires decimals <= MAX_DECIMALS && s != [] && IsDigit(s[0]) && IsDigit(s[|s| - 1])
    requires !IsDigit(decimal) && Without(s, group) == t && IsDecimal(t)
    requires decimal == '.' || decimal !in t
    ensures ParseDecimalInput(s, decimals, decimal, group) ==
      if |Fraction(t)| > decimals then Err(Overflow) else Ok(Scaled(t, decimals))
  {
    assert Trim(s) == s;
    if decimal != '.' {
      DotForAbsent(t, decimal);
    }
  }

  lemma {:induction false} DotForAppend(a: string, b: string, c: char)
    requires c !in a
    ensures DotFor(a + [c] + b, c) == a + "." + b
  {
    if a == [] {
      assert a + [c] + b == [c] + b;
      assert a + "." + b == "." + b;
    } else {
      assert (a + [c] + b)[1..] == a[1..] + [c] + b;
      DotForAppend(a[1..], b, c);
      assert a + "." + b == [a[0]] + (a[1..] + "." + b);
    }
  }

  /**
   The box reads any amount written with the locale's separators, grouped in any way, for what it
   is worth, and refuses only more digits than the token has.
   */
  lemma ReadsLocaleText(raw: string, s: string, w: string, f: string, decimals: nat, decimal: char, group: char)
    requires decimals <= MAX_DECIMALS && w != [] && AllDigits(w) && AllDigits(f) && !IsDigit(decimal)
    requires s == Trim(raw) && s != [] && s[0] != '-'
    requires Without(s, group) == if f == [] then w else w + [decimal] + f
    ensures ParseDecimalInput(raw, decimals, decimal, group) ==
      if |f| > decimals then Err(Overflow) else Ok(Worth(w, f, decimals))
  {
    var t := if f == [] then w else w + "." + f;
    DigitsLack(w, decimal);
    if f == [] {
      DotForAbsent(w, decimal);
    } else {
      DotForAppend(w, f, decimal);
    }
    DecimalText(w, f, t);
    if |f| <= decimals {
      PadEndReads(f, decimals);
    }
  }

  lemma DecimalText(w: string, f: string, t: string)
    requires w != [] && AllDigits(w) && AllDigits(f) && t == if f == [] then w else w + "." + f
    ensures Whole(t) == w && Fraction(t) == f && IsDecimal(t)
  {
    if f == [] {
      NoDotIn(w);
    } else {
      DotIn(w, f);
    }
  }

  lemma {:induction false} TrimsToNothingIff(s: string)
    ensures Trim(s) == [] <==> forall c :: c in s ==> IsSpace(c)
    decreases |s|
  {
    if s != [] {
      if IsSpace(s[0]) {
        TrimsToNothingIff(s[1..]);
        assert s == [s[0]] + s[1..];
      } else if IsSpace(s[|s| - 1]) {
        TrimsToNothingIff(s[..|s| - 1]);
        assert s == s[..|s| - 1] + [s[|s| - 1]];
      } else {
        assert s[0] in s;
      }
    }
  }

  /** The first character that is not blank is a minus. */
  ghost predicate LeadsWithMinus(s: string)
  {
    exists i :: MinusAfterBlanks(s, i)
  }

  predicate MinusAfterBlanks(s: string, i: nat)
  {
    i < |s| && s[i] == '-' && forall j :: 0 <= j < i ==> IsSpace(s[j])
  }

  lemma {:induction false} TrimStarts(s: string)
    ensures (Trim(s) != [] && Trim(s)[0] == '-') <==> LeadsWithMinus(s)
    decreases |s|
  {
    if s != [] {
      if IsSpace(s[0]) {
        TrimStarts(s[1..]);
        MinusMoves(s);
      } else if IsSpace(s[|s| - 1]) {
        TrimStarts(s[..|s| - 1]);
        assert s[0] == '-' ==> MinusAfterBlanks(s, 0) && MinusAfterBlanks(s[..|s| - 1], 0);
      } else {
        assert s[0] == '-' ==> MinusAfterBlanks(s, 0);
      }
    }
  }

  lemma MinusMoves(s: string)
    requires s != [] && IsSpace(s[0])
    ensures LeadsWithMinus(s[1..]) <==> LeadsWithMinus(s)
  {
    if i: nat :| MinusAfterBlanks(s[1..], i) {
      assert forall j :: 0 < j < i + 1 ==> s[j] == s[1..][j - 1];
      assert MinusAfterBlanks(s, i + 1);
    }
    if i: nat :| MinusAfterBlanks(s, i) {
      assert forall j :: 0 <= j < i - 1 ==> s[1..][j] == s[j + 1];
      assert MinusAfterBlanks(s[1..], i - 1);
    }
  }

  /** Only blank text is called empty, and only text that leads with a minus, negative. */
  lemma EmptyOrNegativeIff(raw: string, decimals: nat, decimal: char, group: char)
    requires decimals <= MAX_DECIMALS
    ensures ParseDecimalInput(raw, decimals, decimal, group) == Err(Empty) <==> forall c :: c in raw ==> IsSpace(c)
    ensures ParseDecimalInput(raw, decimals, decimal, group) == Err(Negative) <==> LeadsWithMinus(raw)
  {
    TrimsToNothingIff(raw);
    TrimStarts(raw);
  }

  lemma DigitsLack(s: string, c: char)
    requires AllDigits(s) && !IsDigit(c)
    ensures c !in s
  {
  }

  /** The printed parts of a positive amount with a fraction. */
  lemma PrintedFraction(v: nat, decimals: nat)
    requires Dust(v, decimals) != 0
    ensures var f := StripZeros(PadStart(Print(Dust(v, decimals)), decimals));
      && f != [] && AllDigits(f) && |f| <= decimals && Read(f) > 0
      && Read(PadEnd(f, decimals)) == Dust(v, decimals)
  {
    var r := Dust(v, decimals);
    assert decimals > 0;
    ReadPrint(r);
    PrintLength(r, decimals);
    ReadPadStart(Print(r), decimals);
    StripNonzero(PadStart(Print(r), decimals));
    StripThenPad(PadStart(Print(r), decimals));
  }

  /** Stripping the dot reads the digits as one integer, which is strictly more. */
  lemma DotLostIsMore(w: string, f: string, decimals: nat)
    requires AllDigits(w) && AllDigits(f) && 0 < |f| <= decimals && Read(f) > 0
    ensures Read(w + f) * Pow10(decimals) > Read(w) * Pow10(decimals) + Read(PadEnd(f, decimals))
  {
    PadEndReads(f, decimals);
    ReadAppend(w, f);
    PowSplit(|f|, decimals);
    MoreByScale(Read(w), Pow10(|f|), Read(f), Pow10(decimals), Pow10(decimals - |f|), Read(w + f),
      Read(PadEnd(f, decimals)));
  }

  lemma PowSplit(k: nat, n: nat)
    requires 0 < k <= n
    ensures Pow10(n) == Pow10(k) * Pow10(n - k) && Pow10(k) >= 10
  {
    Pow10Add(k, n - k);
    assert Pow10(k) == 10 * Pow10(k - 1);
  }

  lemma PadEndReads(f: string, n: nat)
    requires AllDigits(f) && |f| <= n
    ensures AllDigits(PadEnd(f, n)) && Read(PadEnd(f, n)) == Read(f) * Pow10(n - |f|)
  {
    ReadAppend(f, Zeros(n - |f|));
    ReadZeros(n - |f|);
    assert |f| == n ==> f + Zeros(0) == f;
  }

  lemma MulGrowsStrictly(a: nat, b: nat, x: nat)
    requires a < b && x > 0
    ensures x * a < x * b
  {
  }

  lemma MoreByScale(w: nat, pk: nat, x: nat, p: nat, q: nat, big: nat, y: nat)
    requires pk >= 10 && x > 0 && p == pk * q && q >= 1 && big == w * pk + x && y == x * q
    ensures big * p > w * p + y
  {
    MulMonotone(w, 1, pk);
    MulMonotone(p, w, pk * w);
    MulMonotone(q, 10, pk);
    MulGrowsStrictly(q, p, x);
    Distribute(w * pk, x, p);
  }

  lemma Distribute(a: nat, b: nat, p: nat)
    ensures (a + b) * p == a * p + b * p
  {
  }

  lemma TextOfWhole(v: int, decimals: nat)
    requires v > 0 && decimals <= MAX_DECIMALS && Dust(v, decimals) == 0
    ensures var s := WeiToAmountInput(v, decimals);
      AllDigits(s) && s != [] && IsDecimal(s) && Fraction(s) == [] && Scaled(s, decimals) == v
  {
    ReadPrint(Units(v, decimals));
    ScaledDigits(WeiToAmountInput(v, decimals), decimals);
  }

  lemma TextOfFraction(v: int, decimals: nat, w: string, f: string)
    requires v > 0 && decimals <= MAX_DECIMALS && Dust(v, decimals) != 0
    requires w == Print(Units(v, decimals)) && f == StripZeros(PadStart(Print(Dust(v, decimals)), decimals))
    ensures var s := WeiToAmountInput(v, decimals);
      s == w + "." + f && IsDecimal(s) && Whole(s) == w && Fraction(s) == f && |f| <= decimals
        && Scaled(s, decimals) == v
    ensures f != [] && AllDigits(f) && AllDigits(w) && Read(f) > 0 && Read(w) == Units(v, decimals)
  {
    ReadPrint(Units(v, decimals));
    PrintedFraction(v, decimals);
    DotIn(w, f);
  }

  /**
   The exact amount put into the box reads back as itself in every locale, except where the dot
   is the grouping separator and the amount has a fraction: there the dot is dropped.
   */
  lemma AmountInputRoundTrip(v: int, decimals: nat, decimal: char, group: char)
    requires v > 0 && decimals <= MAX_DECIMALS && !IsDigit(decimal) && !IsDigit(group)
    ensures ParseDecimalInput(WeiToAmountInput(v, decimals), decimals, decimal, group) == Ok(v)
       <==> (group != '.' || Dust(v, decimals) == 0)
  {
    var s := WeiToAmountInput(v, decimals);
    if Dust(v, decimals) == 0 {
      TextOfWhole(v, decimals);
      WithoutAbsent(s, group);
      NormalizesTo(s, s, decimals, decimal, group);
    } else {
      var w, f := Print(Units(v, decimals)), StripZeros(PadStart(Print(Dust(v, decimals)), decimals));
      TextOfFraction(v, decimals, w, f);
      if group != '.' {
        DigitsLack(w, group);
        DigitsLack(f, group);
        DigitsLack(w, decimal);
        DigitsLack(f, decimal);
        WithoutAbsent(s, group);
        NormalizesTo(s, s, decimals, decimal, group);
      } else {
        DotLost(v, decimals, decimal, w, f);
      }
    }
  }

  lemma DotLost(v: int, decimals: nat, decimal: char, w: string, f: string)
    requires v > 0 && decimals <= MAX_DECIMALS && Dust(v, decimals) != 0 && !IsDigit(decimal)
    requires w == Print(Units(v, decimals)) && f == StripZeros(PadStart(Print(Dust(v, decimals)), decimals))
    ensures ParseDecimalInput(WeiToAmountInput(v, decimals), decimals, decimal, '.') != Ok(v)
  {
    TextOfFraction(v, decimals, w, f);
    WithoutDot(w, f);
    ScaledDigits(w + f, decimals);
    DigitsLack(w + f, decimal);
    NormalizesTo(WeiToAmountInput(v, decimals), w + f, decimals, decimal, '.');
    DotLostIsMore(w, f, decimals);
    var misread := Read(w + f) * Pow10(decimals);
    assert misread > v;
  }

  lemma {:induction false} WithoutDot(w: string, f: string)
    requires AllDigits(w) && AllDigits(f)
    ensures Without(w + "." + f, '.') == w + f
  {
    var s := w + "." + f;
    if w == [] {
      assert s == ['.'] + f && s[1..] == f;
      WithoutAbsent(f, '.');
    } else {
      assert s[1..] == w[1..] + "." + f;
      WithoutDot(w[1..], f);
      assert w + f == [w[0]] + (w[1..] + f);
    }
  }

  lemma ScaledDigits(t: string, decimals: nat)
    requires AllDigits(t) && t != []
    ensures IsDecimal(t) && Fraction(t) == [] && Scaled(t, decimals) == Read(t) * Pow10(decimals)
  {
    NoDotIn(t);
    PadEndReads([], decimals);
  }
}
