/**
  Base 64 with the URL- and filename-safe alphabet of section 5 of RFC 4648,
  padded with `=`, as Go's `base64.URLEncoding` writes and reads it.

  The decoder is Go's default (non-strict) one: the input is a sequence of
  four-character groups, only the last of which may end in `==` or `=`, and
  the bits that a padded group leaves over are ignored rather than checked.
  Go's decoder also skips `'\r'` and `'\n'`; the topic codec never hands it
  either (its input is a `%s` word), so this decoder rejects them.
*/
module Base64Url {
  import opened Wrappers

  type Byte = x: int | 0 <= x < 256
  type Bytes = seq<Byte>

  /** A six-bit group, the value of one symbol. */
  type Sextet = x: int | 0 <= x < 64

  const Padding: char := '='

  /** The 64 symbols: `A-Z`, `a-z`, `0-9`, `-` and `_`. */
  predicate IsSymbol(c: char) {
    ('A' <= c <= 'Z') || ('a' <= c <= 'z') || ('0' <= c <= '9') || c == '-' || c == '_'
  }

  /** Table 2 of RFC 4648: the symbol for each value. */
  function Symbol(v: Sextet): (c: char)
    ensures IsSymbol(c)
  {
    if v < 26 then ('A' as int + v) as char
    else if v < 52 then ('a' as int + (v - 26)) as char
    else if v < 62 then ('0' as int + (v - 52)) as char
    else if v == 62 then '-'
    else '_'
  }

  /** The value of a symbol; the inverse of Symbol. */
  function SymbolValue(c: char): (v: Sextet)
    requires IsSymbol(c)
    ensures Symbol(v) == c
  {
    if 'A' <= c <= 'Z' then c as int - 'A' as int
    else if 'a' <= c <= 'z' then c as int - 'a' as int + 26
    else if '0' <= c <= '9' then c as int - '0' as int + 52
    else if c == '-' then 62
    else 63
  }

  /** The four sextets that carry three bytes, most significant bits first. */
  function Split(x: Byte, y: Byte, z: Byte): (Sextet, Sextet, Sextet, Sextet) {
    (x / 4, x % 4 * 16 + y / 16, y % 16 * 4 + z / 64, z % 64)
  }

  /** The three bytes that four sextets carry. */
  function Join(v0: Sextet, v1: Sextet, v2: Sextet, v3: Sextet): (Byte, Byte, Byte) {
    (v0 * 4 + v1 / 16, v1 % 16 * 16 + v2 / 4, v2 % 4 * 64 + v3)
  }

  lemma JoinSplit(x: Byte, y: Byte, z: Byte)
    ensures var (v0, v1, v2, v3) := Split(x, y, z); Join(v0, v1, v2, v3) == (x, y, z)
  {
    var v1 := x % 4 * 16 + y / 16;
    assert v1 / 16 == x % 4 && v1 % 16 == y / 16;
    var v2 := y % 16 * 4 + z / 64;
    assert v2 / 4 == y % 16 && v2 % 4 == z / 64;
  }

  /** Four sextets carry no spare bits, so joining them and splitting again gives them back. */
  lemma SplitJoin(v0: Sextet, v1: Sextet, v2: Sextet, v3: Sextet)
    ensures var (x, y, z) := Join(v0, v1, v2, v3); Split(x, y, z) == (v0, v1, v2, v3)
  {
    var (x, y, z) := Join(v0, v1, v2, v3);
    assert x / 4 == v0 && x % 4 == v1 / 16;
    assert y / 16 == v1 % 16 && y % 16 == v2 / 4;
    assert z / 64 == v2 % 4 && z % 64 == v3;
    assert v1 / 16 * 16 + v1 % 16 == v1;
    assert v2 / 4 * 4 + v2 % 4 == v2;
  }

  /** Encoding a decoded group of four symbols gives the group back. */
  lemma EncodeDecodeGroup(q: string)
    requires |q| == 4 && DecodeGroup(q).Some?
    ensures var b := DecodeGroup(q).value; EncodeGroup(b[0], b[1], b[2]) == q
  {
    FourElements(q);
    var v0, v1, v2, v3 := SymbolValue(q[0]), SymbolValue(q[1]), SymbolValue(q[2]), SymbolValue(q[3]);
    var j := Join(v0, v1, v2, v3);
    assert DecodeGroup(q) == Some([j.0, j.1, j.2]);
    EncodeJoin(v0, v1, v2, v3);
  }

  lemma FourElements(q: string)
    requires |q| == 4
    ensures q == [q[0], q[1], q[2], q[3]]
  {
  }

  lemma EncodeJoin(v0: Sextet, v1: Sextet, v2: Sextet, v3: Sextet)
    ensures var j := Join(v0, v1, v2, v3);
      EncodeGroup(j.0, j.1, j.2) == [Symbol(v0), Symbol(v1), Symbol(v2), Symbol(v3)]
  {
    SplitJoin(v0, v1, v2, v3);
  }

  /** The four symbols for three bytes; Encode pads the last group. */
  function EncodeGroup(x: Byte, y: Byte, z: Byte): (q: string)
    ensures |q| == 4 && forall i :: 0 <= i < 4 ==> IsSymbol(q[i])
  {
    var (v0, v1, v2, v3) := Split(x, y, z);
    [Symbol(v0), Symbol(v1), Symbol(v2), Symbol(v3)]
  }

  /** The last group for one remaining byte: two symbols, then `==`. */
  function EncodeLastOne(x: Byte): (q: string)
    ensures |q| == 4 && IsSymbol(q[0]) && IsSymbol(q[1]) && q[2] == Padding && q[3] == Padding
  {
    var (v0, v1, _, _) := Split(x, 0, 0);
    [Symbol(v0), Symbol(v1), Padding, Padding]
  }

  /** The last group for two remaining bytes: three symbols, then `=`. */
  function EncodeLastTwo(x: Byte, y: Byte): (q: string)
    ensures |q| == 4 && IsSymbol(q[0]) && IsSymbol(q[1]) && IsSymbol(q[2]) && q[3] == Padding
  {
    var (v0, v1, v2, _) := Split(x, y, 0);
    [Symbol(v0), Symbol(v1), Symbol(v2), Padding]
  }

  /** `base64.URLEncoding.EncodeToString`: three bytes become four symbols. */
  function Encode(b: Bytes): (r: string)
    ensures |r| == 4 * ((|b| + 2) / 3)
    ensures forall i :: 0 <= i < |r| ==> IsSymbol(r[i]) || r[i] == Padding
    ensures forall i :: 0 <= i < |r| - 2 ==> IsSymbol(r[i])
  {
    if |b| == 0 then []
    else if |b| == 1 then EncodeLastOne(b[0])
    else if |b| == 2 then EncodeLastTwo(b[0], b[1])
    else
      var g, t := EncodeGroup(b[0], b[1], b[2]), Encode(b[3..]);
      assert (|b| + 2) / 3 == (|b[3..]| + 2) / 3 + 1;
      assert forall i :: 0 <= i < |g + t| ==> (g + t)[i] == if i < 4 then g[i] else t[i - 4];
      g + t
  }

  /** A group of four symbols without padding: three bytes. */
  function DecodeGroup(q: string): (r: Option<Bytes>)
    requires |q| == 4
    ensures r.Some? <==> forall i :: 0 <= i < 4 ==> IsSymbol(q[i])
    ensures r.Some? ==> |r.value| == 3
  {
    if IsSymbol(q[0]) && IsSymbol(q[1]) && IsSymbol(q[2]) && IsSymbol(q[3]) then
      var (x, y, z) := Join(SymbolValue(q[0]), SymbolValue(q[1]), SymbolValue(q[2]), SymbolValue(q[3]));
      Some([x, y, z])
    else None
  }

  /** The last groups Go accepts: `XY==`, `XYZ=` or four symbols. */
  predicate IsLastGroup(q: string)
    requires |q| == 4
  {
    IsSymbol(q[0]) && IsSymbol(q[1])
    && ((q[2] == Padding && q[3] == Padding) || (IsSymbol(q[2]) && (q[3] == Padding || IsSymbol(q[3]))))
  }

  /**
    The text Go's padded decoder accepts: a whole number of groups, every
    group but the last made of four symbols, and the last one a last group.
  */
  predicate IsEncoding(s: string) {
    |s| % 4 == 0
    && (forall i :: 0 <= i < |s| - 4 ==> IsSymbol(s[i]))
    && (s != [] ==> IsLastGroup(s[|s| - 4..]))
  }

  /** The last group, which may end in `==` (one byte) or `=` (two bytes). */
  function DecodeLastGroup(q: string): (r: Option<Bytes>)
    requires |q| == 4
    ensures r.Some? <==> IsLastGroup(q)
    ensures r.Some? ==> 1 <= |r.value| <= 3
    ensures r.Some? ==> (|r.value| == 1 <==> q[2] == Padding) && (|r.value| == 3 <==> q[3] != Padding)
    ensures r.Some? ==> forall i :: 0 <= i < 4 ==> IsSymbol(q[i]) || (i >= |r.value| + 1 && q[i] == Padding)
  {
    if !IsSymbol(q[0]) || !IsSymbol(q[1]) then None
    else if q[2] == Padding then
      if q[3] == Padding then
        var (x, _, _) := Join(SymbolValue(q[0]), SymbolValue(q[1]), 0, 0);
        Some([x])
      else None
    else if !IsSymbol(q[2]) then None
    else if q[3] == Padding then
      var (x, y, _) := Join(SymbolValue(q[0]), SymbolValue(q[1]), SymbolValue(q[2]), 0);
      Some([x, y])
    else DecodeGroup(q)
  }

  /**
    `base64.URLEncoding.DecodeString`; None where Go reports a
    CorruptInputError: a length that is not a multiple of four, a character
    outside the alphabet, or a group that is neither four symbols nor, as the
    last group, `XY==` or `XYZ=` (so `X===`, `XY=A` and padding before the
    last group are all refused).
  */
  function Decode(s: string): (r: Option<Bytes>)
    ensures r.Some? <==> IsEncoding(s)
    ensures r.Some? ==> |s| == 4 * ((|r.value| + 2) / 3)
    ensures r.Some? ==> forall i :: 0 <= i < |s| ==> IsSymbol(s[i]) || s[i] == Padding
  {
    if s == [] then Some([])
    else if |s| < 4 then None
    else if |s| == 4 then
      assert s[|s| - 4..] == s;
      var r := DecodeLastGroup(s);
      assert r.Some? ==> (|r.value| + 2) / 3 == 1;
      r
    else
      EncodingStep(s);
      match DecodeGroup(s[..4])
      case None => None
      case Some(g) =>
        match Decode(s[4..])
        case None => None
        case Some(rest) =>
          assert (|g + rest| + 2) / 3 == (|rest| + 2) / 3 + 1;
          Some(g + rest)
  }

  /** An encoding longer than one group is a group of four symbols followed by an encoding. */
  lemma EncodingStep(s: string)
    requires |s| > 4
    ensures IsEncoding(s) <==> (forall i :: 0 <= i < 4 ==> IsSymbol(s[i])) && IsEncoding(s[4..])
  {
    var t := s[4..];
    assert |s| % 4 == |t| % 4 by {
      assert |s| == |t| + 4;
    }
    if |s| % 4 == 0 {
      assert s[|s| - 4..] == t[|t| - 4..];
      assert forall j :: 0 <= j < |t| - 4 ==> t[j] == s[j + 4];
      if (forall i :: 0 <= i < 4 ==> IsSymbol(s[i])) && IsEncoding(t) {
        forall i | 0 <= i < |s| - 4
          ensures IsSymbol(s[i])
        {
          if i >= 4 {
            assert s[i] == t[i - 4];
          }
        }
      }
    }
  }

  /** In accepted text, `=` stands only in the last two places, and `=` in the second-last is followed by `=`. */
  lemma PaddingOnlyAtEnd(s: string)
    requires Decode(s).Some?
    ensures forall i :: 0 <= i < |s| - 2 ==> IsSymbol(s[i])
    ensures |s| >= 2 && s[|s| - 2] == Padding ==> s[|s| - 1] == Padding
  {
    if s != [] {
      var q := s[|s| - 4..];
      assert IsLastGroup(q);
      forall i | 0 <= i < |s| - 2
        ensures IsSymbol(s[i])
      {
        if i >= |s| - 4 {
          assert s[i] == q[i - (|s| - 4)];
        }
      }
      assert s[|s| - 2] == q[2] && s[|s| - 1] == q[3];
    }
  }

  /** Go refuses these, and so does the model: padding out of place, or padding alone. */
  lemma MisplacedPaddingRefused()
    ensures Decode("AB=C") == None
    ensures Decode("A=AA") == None
    ensures Decode("X===") == None
    ensures Decode("====") == None
    ensures Decode("AB==CDEF") == None
  {
    assert !IsEncoding("AB==CDEF") by {
      assert "AB==CDEF"[2] == Padding;
    }
  }

  lemma SymbolRoundTrip(v: Sextet)
    ensures SymbolValue(Symbol(v)) == v
  {
  }

  lemma DecodeEncodeGroup(x: Byte, y: Byte, z: Byte)
    ensures DecodeGroup(EncodeGroup(x, y, z)) == Some([x, y, z])
  {
    var (v0, v1, v2, v3) := Split(x, y, z);
    SymbolRoundTrip(v0);
    SymbolRoundTrip(v1);
    SymbolRoundTrip(v2);
    SymbolRoundTrip(v3);
    JoinSplit(x, y, z);
  }

  lemma DecodeEncodeOne(x: Byte)
    ensures DecodeLastGroup(Encode([x])) == Some([x])
  {
    var (v0, v1, v2, v3) := Split(x, 0, 0);
    assert Encode([x]) == [Symbol(v0), Symbol(v1), Padding, Padding];
    SymbolRoundTrip(v0);
    SymbolRoundTrip(v1);
    JoinSplit(x, 0, 0);
  }

  lemma DecodeEncodeTwo(x: Byte, y: Byte)
    ensures DecodeLastGroup(Encode([x, y])) == Some([x, y])
  {
    var (v0, v1, v2, v3) := Split(x, y, 0);
    assert Encode([x, y]) == [Symbol(v0), Symbol(v1), Symbol(v2), Padding];
    SymbolRoundTrip(v0);
    SymbolRoundTrip(v1);
    SymbolRoundTrip(v2);
    JoinSplit(x, y, 0);
  }

  lemma DecodeEncodeThree(x: Byte, y: Byte, z: Byte)
    ensures DecodeLastGroup(Encode([x, y, z])) == Some([x, y, z])
  {
    var q := EncodeGroup(x, y, z);
    assert [x, y, z][3..] == [];
    assert Encode([x, y, z]) == q;
    assert q[2] != Padding && q[3] != Padding;
    DecodeEncodeGroup(x, y, z);
  }

  /** A full group followed by more input decodes group by group. */
  lemma DecodeFullGroupThenRest(q: string, tail: string)
    requires |q| == 4 && |tail| > 0
    ensures Decode(q + tail) ==
      match DecodeGroup(q)
      case None => None
      case Some(g) => (match Decode(tail) case None => None case Some(rest) => Some(g + rest))
  {
    var s := q + tail;
    assert s[..4] == q && s[4..] == tail;
  }

  /** Decoding what was encoded gives back the bytes. */
  lemma {:induction false} DecodeEncode(b: Bytes)
    ensures Decode(Encode(b)) == Some(b)
  {
    if |b| == 1 {
      assert b == [b[0]];
      DecodeEncodeOne(b[0]);
    } else if |b| == 2 {
      assert b == [b[0], b[1]];
      DecodeEncodeTwo(b[0], b[1]);
    } else if |b| == 3 {
      assert b == [b[0], b[1], b[2]];
      DecodeEncodeThree(b[0], b[1], b[2]);
    } else if |b| > 3 {
      DecodeEncode(b[3..]);
      DecodeEncodeStep(b);
    }
  }

  lemma DecodeEncodeStep(b: Bytes)
    requires |b| > 3 && Decode(Encode(b[3..])) == Some(b[3..])
    ensures Decode(Encode(b)) == Some(b)
  {
    var q, tail := EncodeGroup(b[0], b[1], b[2]), Encode(b[3..]);
    assert Encode(b) == q + tail;
    DecodeEncodeGroup(b[0], b[1], b[2]);
    DecodeFullGroupThenRest(q, tail);
    SplitFirstThree(b);
  }

  lemma SplitFirstThree(b: Bytes)
    requires |b| >= 3
    ensures b == [b[0], b[1], b[2]] + b[3..]
  {
    assert b[..3] == [b[0], b[1], b[2]];
    assert b == b[..3] + b[3..];
  }

  /** Different byte strings have different encodings. */
  lemma EncodeInjective(a: Bytes, b: Bytes)
    requires Encode(a) == Encode(b)
    ensures a == b
  {
    DecodeEncode(a);
    DecodeEncode(b);
  }
}
