/**
 * String helpers shared by the three components: `toLowerCase`,
 * `String.prototype.includes`, the order used to sort titles, and the
 * decimal rendering of a count.
 */
module Text {

  /** `toLowerCase` on one character, restricted to the ASCII letters. */
  function LowerChar(c: char): char
  {
    if 'A' <= c <= 'Z' then (c as int + 32) as char else c
  }

  /** `s.toLowerCase()`, character by character (ASCII letters only). */
  function ToLower(s: string): (r: string)
    ensures |r| == |s|
  {
    seq(|s|, i requires 0 <= i < |s| => LowerChar(s[i]))
  }

  /** No upper-case ASCII letter survives lower-casing. */
  lemma ToLowerLeavesNoUpper(s: string)
    ensures forall i :: 0 <= i < |s| ==> !('A' <= ToLower(s)[i] <= 'Z')
  {
  }

  /** Lower-casing twice is lower-casing once. */
  lemma ToLowerIdempotent(s: string)
    ensures ToLower(ToLower(s)) == ToLower(s)
  {
  }

  /** `haystack.includes(needle)`, by trying each start position in turn. */
  function Contains(haystack: string, needle: string): bool
    decreases |haystack|
  {
    if needle <= haystack then true
    else if |haystack| == 0 then false
    else Contains(haystack[1..], needle)
  }

  /** `haystack.includes(needle)` holds exactly when some position of `haystack` starts with `needle`. */
  lemma {:induction false} ContainsIff(haystack: string, needle: string)
    ensures Contains(haystack, needle) <==> exists i :: 0 <= i <= |haystack| && needle <= haystack[i..]
    decreases |haystack|
  {
    if needle <= haystack {
      assert needle <= haystack[0..];
    } else if |haystack| == 0 {
    } else {
      ContainsIff(haystack[1..], needle);
      if Contains(haystack[1..], needle) {
        var j :| 0 <= j <= |haystack[1..]| && needle <= haystack[1..][j..];
        assert haystack[1..][j..] == haystack[j + 1..];
      }
      if i :| 0 <= i <= |haystack| && needle <= haystack[i..] {
        assert i != 0;
        assert haystack[i..] == haystack[1..][i - 1..];
      }
    }
  }

  /** Every string contains the empty string (an empty search term matches everything). */
  lemma ContainsEmpty(haystack: string)
    ensures Contains(haystack, "")
  {
  }

  /** Lexicographic order on code points: the order `localeCompare` is modelled by. */
  function LexLe(a: string, b: string): bool
  {
    if a == [] then true
    else if b == [] then false
    else if a[0] < b[0] then true
    else if b[0] < a[0] then false
    else LexLe(a[1..], b[1..])
  }

  lemma {:induction false} LexLeTotal(a: string, b: string)
    ensures LexLe(a, b) || LexLe(b, a)
  {
    if a != [] && b != [] && a[0] == b[0] {
      LexLeTotal(a[1..], b[1..]);
    }
  }

  lemma {:induction false} LexLeTransitive(a: string, b: string, c: string)
    requires LexLe(a, b) && LexLe(b, c)
    ensures LexLe(a, c)
  {
    if a != [] && b != [] && c != [] && a[0] == b[0] == c[0] {
      LexLeTransitive(a[1..], b[1..], c[1..]);
    }
  }

  lemma {:induction false} LexLeAntisymmetric(a: string, b: string)
    requires LexLe(a, b) && LexLe(b, a)
    ensures a == b
  {
    if a != [] && b != [] {
      LexLeAntisymmetric(a[1..], b[1..]);
      assert a == [a[0]] + a[1..];
      assert b == [b[0]] + b[1..];
    }
  }

  function DigitChar(d: nat): (c: char)
    requires d < 10
    ensures '0' <= c <= '9'
  {
    ('0' as int + d) as char
  }

  /** The number a string of decimal digits stands for, read left to right. */
  function DigitsValue(r: string): nat
    requires forall i :: 0 <= i < |r| ==> '0' <= r[i] <= '9'
  {
    if r == [] then 0 else DigitsValue(r[..|r| - 1]) * 10 + (r[|r| - 1] as int - '0' as int)
  }

  /** The decimal rendering of a count, as JavaScript prints a non-negative integer. */
  function Decimal(n: nat): (r: string)
    ensures |r| > 0
    ensures forall i :: 0 <= i < |r| ==> '0' <= r[i] <= '9'
    ensures DigitsValue(r) == n
    ensures (r[0] == '0') <==> n == 0
  {
    if n < 10 then [DigitChar(n)]
    else
      var front := Decimal(n / 10);
      var r := front + [DigitChar(n % 10)];
      assert r[..|r| - 1] == front;
      r
  }
}
