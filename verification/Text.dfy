/** Case folding and code-unit order of strings, as the source compares addresses and keys. */
module Text {
  import opened Sorting

  /** An account, token or contract address in the spelling it arrived in. */
  type Address = string

  function LowerChar(c: char): char
  {
    if 'A' <= c <= 'Z' then (c as int + 32) as char else c
  }

  /** `toLowerCase` on ASCII text, which is all an address or a hash holds. */
  function Lower(s: string): (r: string)
    ensures |r| == |s|
  {
    seq(|s|, i requires 0 <= i < |s| => LowerChar(s[i]))
  }

  /** Addresses are equal when they differ only in letter case. */
  predicate SameAddress(a: Address, b: Address)
  {
    Lower(a) == Lower(b)
  }

  /** The `<` of two strings: lexicographic by code unit. */
  predicate Less(a: string, b: string)
  {
    if b == [] then false
    else if a == [] then true
    else if a[0] != b[0] then a[0] < b[0]
    else Less(a[1..], b[1..])
  }

  predicate AtMost(a: string, b: string)
  {
    a == b || Less(a, b)
  }

  lemma LessAsymmetric(a: string, b: string)
    ensures !(Less(a, b) && Less(b, a))
  {
  }

  lemma LessTotal(a: string, b: string)
    ensures Less(a, b) || a == b || Less(b, a)
  {
    if a != [] && b != [] && a[0] == b[0] {
      LessTotal(a[1..], b[1..]);
      assert a == [a[0]] + a[1..] && b == [b[0]] + b[1..];
    }
  }

  lemma LessTransitive(a: string, b: string, c: string)
    requires Less(a, b) && Less(b, c)
    ensures Less(a, c)
  {
    if a != [] && a[0] == b[0] == c[0] {
      LessTransitive(a[1..], b[1..], c[1..]);
    }
  }

  lemma AtMostIsTotalPreorder()
    ensures TotalPreorder(AtMost)
  {
    forall x: string, y: string ensures AtMost(x, y) || AtMost(y, x) {
      LessTotal(x, y);
    }
    forall x: string, y: string, z: string | AtMost(x, y) && AtMost(y, z) ensures AtMost(x, z) {
      if Less(x, y) && Less(y, z) {
        LessTransitive(x, y, z);
      }
    }
  }
}
