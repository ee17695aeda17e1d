/** String helpers shared by the cart exporter and the product filters:
    decimal rendering of array indices, ASCII lower-casing, substring search
    and the lexicographic string order of a default JavaScript sort. */
module Strings {

  /** The decimal digit character for d. */
  function Digit(d: nat): (c: char)
    requires d < 10
    ensures '0' <= c <= '9'
    ensures c as int - '0' as int == d
  {
    ('0' as int + d) as char
  }

  /** The number a string of decimal digits spells, most significant digit
      first. */
  ghost function DecimalValue(s: string): int
  {
    if s == [] then 0 else 10 * DecimalValue(s[..|s| - 1]) + (s[|s| - 1] as int - '0' as int)
  }

  /** Decimal rendering of a non-negative integer, as a template literal
      renders an array index: no sign, no leading zeros. */
  function NatToString(n: nat): (s: string)
    ensures 1 <= |s|
    ensures forall i | 0 <= i < |s| :: '0' <= s[i] <= '9'
    ensures n < 10 <==> |s| == 1
    ensures DecimalValue(s) == n
    ensures |s| > 1 ==> s[0] != '0'
  {
    if n < 10 then
      assert [Digit(n)][..0] == [];
      [Digit(n)]
    else
      var head := NatToString(n / 10);
      assert (head + [Digit(n % 10)])[..|head|] == head;
      head + [Digit(n % 10)]
  }

  /** Distinct indices get distinct decimal renderings: a rendering spells
      its index back. */
  lemma NatToStringInjective(a: nat, b: nat)
    requires NatToString(a) == NatToString(b)
    ensures a == b
  {
  }

  /** JavaScript's ASCII case mapping of one character; other characters are
      left alone (full Unicode case mapping is not modelled). */
  function LowerChar(c: char): char
  {
    if 'A' <= c <= 'Z' then (c as int + 32) as char else c
  }

  /** `s.toLowerCase()`, restricted to the ASCII letters. */
  function Lower(s: string): (r: string)
    ensures |r| == |s|
    ensures forall i | 0 <= i < |s| :: r[i] == LowerChar(s[i])
    ensures forall i | 0 <= i < |r| :: !('A' <= r[i] <= 'Z')
  {
    seq(|s|, i requires 0 <= i < |s| => LowerChar(s[i]))
  }

  /** `hay.includes(needle)`: needle occurs as a contiguous block of hay. */
  predicate Includes(hay: string, needle: string)
  {
    needle <= hay || (hay != [] && Includes(hay[1..], needle))
  }

  /** Includes agrees with the positional definition of a substring. */
  lemma {:induction false} IncludesAt(hay: string, needle: string)
    ensures Includes(hay, needle) <==> exists i | 0 <= i <= |hay| :: needle <= hay[i..]
  {
    if needle <= hay {
      assert needle <= hay[0..];
    } else if hay == [] {
      forall i | 0 <= i <= |hay| ensures !(needle <= hay[i..]) {
        assert hay[i..] == hay;
      }
    } else {
      IncludesAt(hay[1..], needle);
      if Includes(hay[1..], needle) {
        var i :| 0 <= i <= |hay[1..]| && needle <= hay[1..][i..];
        assert hay[1..][i..] == hay[i + 1..];
      } else {
        forall i | 0 <= i <= |hay| ensures !(needle <= hay[i..]) {
          if i > 0 {
            assert hay[i..] == hay[1..][i - 1..];
          }
        }
      }
    }
  }

  /** The order of a default JavaScript sort on strings: lexicographic,
      comparing characters by their Unicode scalar value, a proper prefix
      first. */
  predicate StrLeq(a: string, b: string)
  {
    a == [] || (b != [] && (a[0] < b[0] || (a[0] == b[0] && StrLeq(a[1..], b[1..]))))
  }

  /** Any two strings are comparable. */
  lemma {:induction false} StrLeqTotal(a: string, b: string)
    ensures StrLeq(a, b) || StrLeq(b, a)
  {
    if a != [] && b != [] && a[0] == b[0] {
      StrLeqTotal(a[1..], b[1..]);
    }
  }

  /** The order is antisymmetric, so on distinct strings it is strict. */
  lemma {:induction false} StrLeqAntisymmetric(a: string, b: string)
    requires StrLeq(a, b) && StrLeq(b, a)
    ensures a == b
  {
    if a != [] && b != [] {
      StrLeqAntisymmetric(a[1..], b[1..]);
      assert a == [a[0]] + a[1..];
      assert b == [b[0]] + b[1..];
    }
  }

  /** The order is transitive, so a list sorted pair by adjacent pair is
      sorted throughout. */
  lemma {:induction false} StrLeqTransitive(a: string, b: string, c: string)
    requires StrLeq(a, b) && StrLeq(b, c)
    ensures StrLeq(a, c)
  {
    if a != [] && a[0] == b[0] && b[0] == c[0] {
      StrLeqTransitive(a[1..], b[1..], c[1..]);
    }
  }

  /** Lower-casing twice is lower-casing once. */
  lemma LowerIdempotent(s: string)
    ensures Lower(Lower(s)) == Lower(s)
  {
  }
}
