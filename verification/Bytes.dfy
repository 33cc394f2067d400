/** Byte strings and the fixed encodings that claims and refs are built from. */
module Bytes {

  type Byte = b: int | 0 <= b < 256

  const U64: int := 0x1_0000_0000_0000_0000

  /** Base-256 digits, least significant first, of `n` modulo 256^width: `to_le_bytes`. */
  function LittleEndian(n: nat, width: nat): (r: seq<Byte>)
    ensures |r| == width
  {
    if width == 0 then [] else [n % 256] + LittleEndian(n / 256, width - 1)
  }

  /** `from_le_bytes`. */
  function FromLittleEndian(bytes: seq<Byte>): nat {
    if bytes == [] then 0 else bytes[0] + 256 * FromLittleEndian(bytes[1..])
  }

  function Pow256(width: nat): (r: nat)
    ensures r > 0
  {
    if width == 0 then 1 else 256 * Pow256(width - 1)
  }

  lemma Pow256Of8()
    ensures Pow256(8) == U64
  {
    assert Pow256(4) == 0x1_0000_0000;
  }

  lemma {:induction false} LittleEndianRoundTrip(n: nat, width: nat)
    requires n < Pow256(width)
    ensures FromLittleEndian(LittleEndian(n, width)) == n
  {
    if width > 0 {
      LittleEndianRoundTrip(n / 256, width - 1);
    }
  }

  function Le64(n: nat): seq<Byte> { LittleEndian(n, 8) }

  lemma Le64RoundTrip(n: nat)
    requires n < U64
    ensures FromLittleEndian(Le64(n)) == n
  {
    Pow256Of8();
    LittleEndianRoundTrip(n, 8);
  }

  lemma Le64Injective(m: nat, n: nat)
    requires m < U64 && n < U64 && Le64(m) == Le64(n)
    ensures m == n
  {
    Le64RoundTrip(m);
    Le64RoundTrip(n);
  }

  lemma {:induction false} FromLittleEndianBound(bytes: seq<Byte>)
    ensures FromLittleEndian(bytes) < Pow256(|bytes|)
  {
    if bytes != [] { FromLittleEndianBound(bytes[1..]); }
  }

  lemma {:induction false} LittleEndianInverse(bytes: seq<Byte>)
    ensures LittleEndian(FromLittleEndian(bytes), |bytes|) == bytes
  {
    if bytes != [] {
      LittleEndianInverse(bytes[1..]);
      assert FromLittleEndian(bytes) % 256 == bytes[0];
      assert FromLittleEndian(bytes) / 256 == FromLittleEndian(bytes[1..]);
    }
  }

  // ----- lowercase hexadecimal -----

  /** `hex::encode`, as ASCII bytes. */
  function HexText(bytes: seq<Byte>): (r: seq<Byte>)
    ensures |r| == 2 * |bytes|
  {
    if bytes == [] then [] else [HexByte(bytes[0] / 16), HexByte(bytes[0] % 16)] + HexText(bytes[1..])
  }

  function HexByte(v: nat): Byte
    requires v < 16
  {
    if v < 10 then 48 + v else 87 + v
  }

  lemma {:induction false} HexTextInjective(a: seq<Byte>, b: seq<Byte>)
    requires |a| == |b| && HexText(a) == HexText(b)
    ensures a == b
  {
    if a != [] {
      assert HexText(a)[2..] == HexText(a[1..]) && HexText(b)[2..] == HexText(b[1..]);
      assert HexText(a)[0] == HexByte(a[0] / 16) && HexText(a)[1] == HexByte(a[0] % 16);
      assert HexText(b)[0] == HexByte(b[0] / 16) && HexText(b)[1] == HexByte(b[0] % 16);
      HexTextInjective(a[1..], b[1..]);
      assert a == [a[0]] + a[1..] && b == [b[0]] + b[1..];
    }
  }

  predicate IsHexDigit(c: char) { '0' <= c <= '9' || 'a' <= c <= 'f' }

  predicate IsHex(s: string, len: nat) {
    |s| == len && forall c | c in s :: IsHexDigit(c)
  }

  function HexValue(c: char): (v: nat)
    requires IsHexDigit(c)
    ensures v < 16
  {
    if c <= '9' then (c as int) - ('0' as int) else 10 + (c as int) - ('a' as int)
  }

  /** `hex::decode` of validated digits. */
  function HexDecode(s: string): (r: seq<Byte>)
    requires |s| % 2 == 0 && forall c | c in s :: IsHexDigit(c)
    ensures |r| == |s| / 2
  {
    if s == [] then []
    else
      assert s[0] in s && s[1] in s;
      [16 * HexValue(s[0]) + HexValue(s[1])] + HexDecode(s[2..])
  }

  lemma {:induction false} HexDecodeInjective(a: string, b: string)
    requires |a| == |b| && |a| % 2 == 0
    requires forall c | c in a :: IsHexDigit(c)
    requires forall c | c in b :: IsHexDigit(c)
    requires HexDecode(a) == HexDecode(b)
    ensures a == b
  {
    if a != [] {
      var x, y := HexDecode(a), HexDecode(b);
      assert a[0] in a && a[1] in a && b[0] in b && b[1] in b;
      assert x[0] == y[0] && x[1..] == HexDecode(a[2..]) && y[1..] == HexDecode(b[2..]);
      assert HexValue(a[0]) == HexValue(b[0]) && HexValue(a[1]) == HexValue(b[1]);
      HexDecodeInjective(a[2..], b[2..]);
      assert a == [a[0], a[1]] + a[2..] && b == [b[0], b[1]] + b[2..];
    }
  }

  // ----- UTF-8 (RFC 3629, section 3) -----

  function Utf8Char(c: char): (r: seq<Byte>)
    ensures 1 <= |r| <= 4
  {
    var n := c as int;
    if n < 0x80 then [n]
    else if n < 0x800 then [0xC0 + n / 64, 0x80 + n % 64]
    else if n < 0x10000 then [0xE0 + n / 4096, 0x80 + n / 64 % 64, 0x80 + n % 64]
    else [0xF0 + n / 262144, 0x80 + n / 4096 % 64, 0x80 + n / 64 % 64, 0x80 + n % 64]
  }

  function Utf8(s: string): seq<Byte> {
    if s == [] then [] else Utf8Char(s[0]) + Utf8(s[1..])
  }

  function Utf8Length(lead: Byte): nat {
    if lead < 0x80 then 1 else if lead < 0xE0 then 2 else if lead < 0xF0 then 3 else 4
  }

  function Utf8Code(r: seq<int>): int
    requires 1 <= |r| <= 4
  {
    if |r| == 1 then r[0]
    else if |r| == 2 then (r[0] - 0xC0) * 64 + r[1] - 0x80
    else if |r| == 3 then (r[0] - 0xE0) * 4096 + (r[1] - 0x80) * 64 + r[2] - 0x80
    else (r[0] - 0xF0) * 262144 + (r[1] - 0x80) * 4096 + (r[2] - 0x80) * 64 + r[3] - 0x80
  }

  lemma Utf8CharDecodes(c: char)
    ensures Utf8Length(Utf8Char(c)[0]) == |Utf8Char(c)|
    ensures Utf8Code(Utf8Char(c)) == c as int
  {
    Base64Digits(c as int);
  }

  lemma Base64Digits(n: nat)
    ensures n == n / 64 * 64 + n % 64
    ensures n / 64 == n / 4096 * 64 + n / 64 % 64
    ensures n / 4096 == n / 262144 * 64 + n / 4096 % 64
  {
  }

  /** The shortest of the four forms of RFC 3629, section 3: the first byte's range tells the length, further bytes hold
      six bits each, and together the bits are the character. */
  lemma Utf8CharMeans(c: char)
    ensures var n: int, r: seq<int> := c as int, Utf8Char(c);
            && |r| == (if n <= 0x7F then 1 else if n <= 0x7FF then 2 else if n <= 0xFFFF then 3 else 4)
            && (|r| == 1 ==> r == [n])
            && (|r| == 2 ==> 0xC2 <= r[0] <= 0xDF && n == 64 * (r[0] - 0xC0) + (r[1] - 0x80))
            && (|r| == 3 ==>
                  && 0xE0 <= r[0] <= 0xEF
                  && n == 64 * (64 * (r[0] - 0xE0) + (r[1] - 0x80)) + (r[2] - 0x80))
            && (|r| == 4 ==>
                  && 0xF0 <= r[0] <= 0xF4
                  && n == 64 * (64 * (64 * (r[0] - 0xF0) + (r[1] - 0x80)) + (r[2] - 0x80)) + (r[3] - 0x80))
            && forall i | 0 < i < |r| :: 0x80 <= r[i] <= 0xBF
  {
    Base64Digits(c as int);
  }

  /** The first character's encoding says where it ends. */
  lemma Utf8CharPrefix(c: char, d: char, s: seq<Byte>, t: seq<Byte>)
    requires Utf8Char(c) + s == Utf8Char(d) + t
    ensures c == d && s == t
  {
    Utf8CharDecodes(c);
    Utf8CharDecodes(d);
    assert (Utf8Char(c) + s)[0] == Utf8Char(c)[0] && (Utf8Char(d) + t)[0] == Utf8Char(d)[0];
    assert Utf8Char(c) == (Utf8Char(c) + s)[..|Utf8Char(c)|] == Utf8Char(d);
    assert s == (Utf8Char(c) + s)[|Utf8Char(c)|..] == t;
    assert (c as int) == (d as int);
  }

  lemma {:induction false} Utf8Injective(a: string, b: string)
    requires Utf8(a) == Utf8(b)
    ensures a == b
  {
    if a != [] && b != [] {
      Utf8CharPrefix(a[0], b[0], Utf8(a[1..]), Utf8(b[1..]));
      Utf8Injective(a[1..], b[1..]);
      assert a == [a[0]] + a[1..] && b == [b[0]] + b[1..];
    }
  }

  // ----- what the encodings are, position by position -----

  /** Each further byte counts 256 times as much as the one before. */
  lemma {:induction false} FromLittleEndianAppend(bytes: seq<Byte>, b: Byte)
    ensures FromLittleEndian(bytes + [b]) == FromLittleEndian(bytes) + Pow256(|bytes|) * b
  {
    if bytes == [] {
      assert bytes + [b] == [b];
      assert FromLittleEndian([b]) == b + 256 * FromLittleEndian([]);
    } else {
      FromLittleEndianAppend(bytes[1..], b);
      assert (bytes + [b])[1..] == bytes[1..] + [b];
    }
  }

  const HEX: string := "0123456789abcdef"

  lemma HexDigitsAre(c: char)
    ensures IsHexDigit(c) <==> c in HEX
    ensures IsHexDigit(c) ==> HEX[HexValue(c)] == c
  {
    assert IsHexDigit(c) ==> HEX[HexValue(c)] == c;
  }

  lemma {:induction false} HexDecodeAt(s: string, i: nat)
    requires |s| % 2 == 0 && (forall c | c in s :: IsHexDigit(c)) && 2 * i < |s|
    ensures s[2 * i] in s && s[2 * i + 1] in s
    ensures HexDecode(s)[i] == 16 * HexValue(s[2 * i]) + HexValue(s[2 * i + 1])
  {
    assert s[0] in s && s[1] in s;
    if i > 0 {
      assert forall c | c in s[2..] :: c in s;
      HexDecodeAt(s[2..], i - 1);
    }
  }

  lemma {:induction false} HexTextAt(bytes: seq<Byte>, i: nat)
    requires i < |bytes|
    ensures HexText(bytes)[2 * i] == HEX[bytes[i] / 16] as int && HexText(bytes)[2 * i + 1] == HEX[bytes[i] % 16] as int
  {
    if i > 0 {
      HexTextAt(bytes[1..], i - 1);
      assert HexText(bytes)[2..] == HexText(bytes[1..]);
    }
  }

  lemma {:induction false} Utf8Concat(a: string, b: string)
    ensures Utf8(a + b) == Utf8(a) + Utf8(b)
  {
    if a == [] {
      assert a + b == b;
    } else {
      assert (a + b)[1..] == a[1..] + b;
      Utf8Concat(a[1..], b);
    }
  }
}
