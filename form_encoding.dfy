/** The application/x-www-form-urlencoded format of the WHATWG URL Standard
    (section 5): the serializer behind `URLSearchParams.toString()` and the
    parser behind reading a query string into `URLSearchParams`. */
module FormEncoding {

  /** A name-value pair of a URLSearchParams list. */
  type Param = (string, string)

  /** Characters the serializer writes as they are. */
  predicate Unreserved(c: char)
  {
    ('a' <= c <= 'z') || ('A' <= c <= 'Z') || ('0' <= c <= '9') || c == '*' || c == '-' || c == '.' || c == '_'
  }

  /** Characters an encoded name or value is made of. */
  predicate Emitted(c: char)
  {
    Unreserved(c) || c == '%' || c == '+'
  }

  predicate Ascii(s: string)
  {
    forall i | 0 <= i < |s| :: s[i] as int < 0x80
  }

  /** The UTF-8 encoding of one Unicode scalar value. */
  function Utf8(c: char): (bytes: seq<int>)
    ensures 1 <= |bytes| <= 4
    ensures forall i | 0 <= i < |bytes| :: 0 <= bytes[i] < 0x100
    ensures c as int < 0x80 ==> bytes == [c as int]
  {
    var n := c as int;
    if n < 0x80 then [n]
    else if n < 0x800 then [0xC0 + n / 0x40, 0x80 + n % 0x40]
    else if n < 0x1_0000 then [0xE0 + n / 0x1000, 0x80 + n / 0x40 % 0x40, 0x80 + n % 0x40]
    else [0xF0 + n / 0x4_0000, 0x80 + n / 0x1000 % 0x40, 0x80 + n / 0x40 % 0x40, 0x80 + n % 0x40]
  }

  /** Upper-case hexadecimal digit of d. */
  function HexDigit(d: int): (c: char)
    requires 0 <= d < 16
    ensures Unreserved(c)
  {
    "0123456789ABCDEF"[d]
  }

  predicate IsHex(c: char)
  {
    ('0' <= c <= '9') || ('A' <= c <= 'F') || ('a' <= c <= 'f')
  }

  /** The value of a hexadecimal digit of either case. */
  function HexValue(c: char): (d: int)
    requires IsHex(c)
    ensures 0 <= d < 16
  {
    if '0' <= c <= '9' then c as int - '0' as int
    else if 'A' <= c <= 'F' then c as int - 'A' as int + 10
    else c as int - 'a' as int + 10
  }

  /** Each byte as `%XY`, with upper-case hexadecimal digits. */
  function PercentBytes(bytes: seq<int>): (r: string)
    requires forall i | 0 <= i < |bytes| :: 0 <= bytes[i] < 0x100
    ensures |r| == 3 * |bytes|
    ensures forall i | 0 <= i < |r| :: Emitted(r[i])
    ensures bytes != [] ==> r[..3] == ['%', HexDigit(bytes[0] / 16), HexDigit(bytes[0] % 16)]
  {
    if bytes == [] then []
    else ['%', HexDigit(bytes[0] / 16), HexDigit(bytes[0] % 16)] + PercentBytes(bytes[1..])
  }

  /** Byte i is written as the three characters starting at 3 * i. */
  lemma {:induction false} PercentBytesAt(bytes: seq<int>, i: nat)
    requires forall k | 0 <= k < |bytes| :: 0 <= bytes[k] < 0x100
    requires i < |bytes|
    ensures PercentBytes(bytes)[3 * i..3 * i + 3] == ['%', HexDigit(bytes[i] / 16), HexDigit(bytes[i] % 16)]
  {
    if i > 0 {
      var tail := PercentBytes(bytes[1..]);
      PercentBytesAt(bytes[1..], i - 1);
      assert bytes[1..][i - 1] == bytes[i];
      assert PercentBytes(bytes)[3..] == tail;
      assert PercentBytes(bytes)[3 * i..3 * i + 3] == tail[3 * (i - 1)..3 * (i - 1) + 3];
    }
  }

  /** One character: a space becomes `+`, an unreserved character stays, any
      other is percent-encoded byte by byte. */
  function EncodeChar(c: char): (r: string)
    ensures r != []
    ensures forall i | 0 <= i < |r| :: Emitted(r[i])
  {
    if c == ' ' then "+"
    else if Unreserved(c) then [c]
    else PercentBytes(Utf8(c))
  }

  /** A name or a value, encoded. */
  function Encode(s: string): (r: string)
    ensures r == [] <==> s == []
    ensures forall i | 0 <= i < |r| :: Emitted(r[i])
  {
    if s == [] then []
    else
      var head, tail := EncodeChar(s[0]), Encode(s[1..]);
      assert forall i | |head| <= i < |head| + |tail| :: (head + tail)[i] == tail[i - |head|];
      head + tail
  }

  /** `name=value`, both encoded. */
  function Pair(p: Param): string
  {
    Encode(p.0) + "=" + Encode(p.1)
  }

  /** `URLSearchParams.toString()`: the pairs joined by `&`. */
  function Serialize(params: seq<Param>): (r: string)
    ensures r == "" <==> params == []
  {
    if params == [] then ""
    else if |params| == 1 then Pair(params[0])
    else Pair(params[0]) + "&" + Serialize(params[1..])
  }

  /** Percent-decoding after `+` is read as a space. An escape stands for one
      byte, read here as the character with that code. */
  function Decode(t: string): string
  {
    if t == [] then []
    else if t[0] == '+' then [' '] + Decode(t[1..])
    else if t[0] == '%' && |t| >= 3 && IsHex(t[1]) && IsHex(t[2]) then
      [(HexValue(t[1]) * 16 + HexValue(t[2])) as char] + Decode(t[3..])
    else [t[0]] + Decode(t[1..])
  }

  /** The text before the first sep and the text after it; all of s and
      nothing when sep does not occur. */
  function BreakAt(s: string, sep: char): (string, string)
  {
    if s == [] then ([], [])
    else if s[0] == sep then ([], s[1..])
    else
      var rest := BreakAt(s[1..], sep);
      ([s[0]] + rest.0, rest.1)
  }

  /** The pieces of s between occurrences of sep. */
  function Split(s: string, sep: char): (parts: seq<string>)
    ensures |parts| >= 1
  {
    if s == [] then [[]]
    else
      var rest := Split(s[1..], sep);
      if s[0] == sep then [[]] + rest else [[s[0]] + rest[0]] + rest[1..]
  }

  /** One `name=value` piece; a piece without `=` is a name with an empty
      value. */
  function ParsePair(piece: string): Param
  {
    var p := BreakAt(piece, '=');
    (Decode(p.0), Decode(p.1))
  }

  /** The pieces as pairs, empty pieces skipped. */
  function ParsePieces(pieces: seq<string>): seq<Param>
  {
    if pieces == [] then []
    else if pieces[0] == [] then ParsePieces(pieces[1..])
    else [ParsePair(pieces[0])] + ParsePieces(pieces[1..])
  }

  /** A query string (without its `?`) read into a URLSearchParams list. */
  function Parse(query: string): seq<Param>
  {
    ParsePieces(Split(query, '&'))
  }

  // ---------------------------------------------------------------------

  /** Reading a written hexadecimal digit gives its value back. */
  lemma HexRoundTrip(d: int)
    requires 0 <= d < 16
    ensures IsHex(HexDigit(d)) && HexValue(HexDigit(d)) == d
  {
    var digits := "0123456789ABCDEF";
    assert digits[d] == HexDigit(d);
    if d < 10 {
      assert digits[d] as int == '0' as int + d;
    } else {
      assert digits[d] as int == 'A' as int + d - 10;
    }
  }

  /** Decoding undoes the encoding of one ASCII character. */
  lemma DecodeEncodeChar(c: char, rest: string)
    requires c as int < 0x80
    ensures Decode(EncodeChar(c) + rest) == [c] + Decode(rest)
  {
    var t := EncodeChar(c) + rest;
    if c == ' ' {
      assert t[0] == '+' && t[1..] == rest;
    } else if Unreserved(c) {
      assert t[0] == c && c != '+' && c != '%';
      assert t[1..] == rest;
    } else {
      var n := c as int;
      HexRoundTrip(n / 16);
      HexRoundTrip(n % 16);
      assert EncodeChar(c) == ['%', HexDigit(n / 16), HexDigit(n % 16)];
      assert t[0] == '%' && t[1] == HexDigit(n / 16) && t[2] == HexDigit(n % 16);
      assert t[3..] == rest;
    }
  }

  /** Decoding undoes encoding on ASCII text. */
  lemma {:induction false} DecodeEncode(s: string)
    requires Ascii(s)
    ensures Decode(Encode(s)) == s
  {
    if s != [] {
      DecodeEncodeChar(s[0], Encode(s[1..]));
      DecodeEncode(s[1..]);
      assert s == [s[0]] + s[1..];
    }
  }

  /** Breaking at the first sep finds the sep that follows a sep-free a. */
  lemma {:induction false} BreakAtJoin(a: string, b: string, sep: char)
    requires sep !in a
    ensures BreakAt(a + [sep] + b, sep) == (a, b)
  {
    if a != [] {
      assert a[0] != sep && sep !in a[1..] by {
        assert a[0] in a;
        assert forall x | x in a[1..] :: x in a;
      }
      BreakAtJoin(a[1..], b, sep);
      assert (a + [sep] + b)[1..] == a[1..] + [sep] + b;
      assert a == [a[0]] + a[1..];
    }
  }

  /** Splitting a sep-free text gives it back whole. */
  lemma {:induction false} SplitNone(a: string, sep: char)
    requires sep !in a
    ensures Split(a, sep) == [a]
  {
    if a != [] {
      assert a[0] != sep && sep !in a[1..] by {
        assert a[0] in a;
        assert forall x | x in a[1..] :: x in a;
      }
      SplitNone(a[1..], sep);
      assert a == [a[0]] + a[1..];
    }
  }

  /** Splitting at the first sep after a sep-free a peels off a. */
  lemma {:induction false} SplitJoin(a: string, b: string, sep: char)
    requires sep !in a
    ensures Split(a + [sep] + b, sep) == [a] + Split(b, sep)
  {
    if a == [] {
      assert (a + [sep] + b)[1..] == b;
    } else {
      SplitJoin(a[1..], b, sep);
      assert (a + [sep] + b)[1..] == a[1..] + [sep] + b;
      assert a == [a[0]] + a[1..];
    }
  }

  /** An encoded pair has no `&` and is read back as the pair it encodes. */
  lemma PairRoundTrip(p: Param)
    requires Ascii(p.0) && Ascii(p.1)
    ensures '&' !in Pair(p) && Pair(p) != []
    ensures ParsePair(Pair(p)) == p
  {
    var n, v := Encode(p.0), Encode(p.1);
    assert Pair(p) == n + ['='] + v;
    assert '=' !in n by {
      forall i | 0 <= i < |n| ensures n[i] != '=' {
        assert Emitted(n[i]);
      }
    }
    forall i | 0 <= i < |Pair(p)| ensures Pair(p)[i] != '&' {
      if i < |n| {
        assert Emitted(n[i]);
      } else if i > |n| {
        assert Pair(p)[i] == v[i - |n| - 1];
        assert Emitted(v[i - |n| - 1]);
      }
    }
    BreakAtJoin(n, v, '=');
    DecodeEncode(p.0);
    DecodeEncode(p.1);
  }

  /** Parsing a serialized list of ASCII pairs gives the list back. */
  lemma {:induction false} ParseSerialize(params: seq<Param>)
    requires forall i | 0 <= i < |params| :: Ascii(params[i].0) && Ascii(params[i].1)
    ensures Parse(Serialize(params)) == params
  {
    if params != [] {
      PairRoundTrip(params[0]);
      if |params| == 1 {
        SplitNone(Pair(params[0]), '&');
        assert ParsePieces([Pair(params[0])]) == [ParsePair(Pair(params[0]))] + ParsePieces([]);
      } else {
        ParseSerialize(params[1..]);
        SplitJoin(Pair(params[0]), Serialize(params[1..]), '&');
        assert params == [params[0]] + params[1..];
      }
    }
  }
}
