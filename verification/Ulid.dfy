/** Writer, remote and document identifiers: minting and checking (src/writer.rs, `mint_id` and `valid_ulid`). */
module Ulid {
  import opened Wrappers
  import opened Bytes
  import opened Order

  const ALPHABET: string := "0123456789ABCDEFGHJKMNPQRSTVWXYZ"
  const DIGITS: nat := 26
  const TWO_48: nat := 0x1_0000_0000_0000
  const TWO_80: nat := 0x1_0000_0000_0000_0000_0000
  const TWO_125: nat := 0x2000_0000_0000_0000_0000_0000_0000_0000
  const TWO_128: nat := 0x1_0000_0000_0000_0000_0000_0000_0000_0000

  predicate IsDigit(c: char) {
    '0' <= c <= '9' || 'A' <= c <= 'H' || 'J' <= c <= 'K' || 'M' <= c <= 'N' || 'P' <= c <= 'T' || 'V' <= c <= 'Z'
  }

  /** `valid_ulid`. */
  predicate ValidUlid(id: string) {
    |id| == DIGITS && (forall c | c in id :: IsDigit(c)) && id[0] <= '7'
  }

  function DigitValue(c: char): (d: nat)
    requires IsDigit(c)
    ensures d < 32
  {
    if c <= '9' then c as int - '0' as int
    else if c <= 'H' then c as int - 'A' as int + 10
    else if c <= 'K' then c as int - 'J' as int + 18
    else if c <= 'N' then c as int - 'M' as int + 20
    else if c <= 'T' then c as int - 'P' as int + 22
    else c as int - 'V' as int + 27
  }

  lemma AlphabetIsTheDigits(d: nat)
    requires d < 32
    ensures IsDigit(ALPHABET[d]) && DigitValue(ALPHABET[d]) == d
  {
  }

  lemma DigitOrder(c: char, d: char)
    requires IsDigit(c) && IsDigit(d)
    ensures DigitValue(c) < DigitValue(d) <==> c < d
  {
  }

  predicate Digits(s: string) {
    forall c | c in s :: IsDigit(c)
  }

  /** Base 32, most significant digit first. */
  function Decode(s: string): nat
    requires Digits(s)
  {
    if s == [] then 0 else Decode(s[..|s| - 1]) * 32 + DigitValue(s[|s| - 1])
  }

  function Pow32(n: nat): (p: nat)
    ensures p > 0
  {
    if n == 0 then 1 else Pow32(n - 1) * 32
  }

  lemma Pow32Of26()
    ensures Pow32(25) == TWO_125 && Pow32(26) == 4 * TWO_128
  {
    assert Pow32(5) == 0x200_0000;
    assert Pow32(10) == 0x4_0000_0000_0000;
    assert Pow32(15) == 0x800_0000_0000_0000_0000;
    assert Pow32(20) == 0x10_0000_0000_0000_0000_0000_0000;
    assert Pow32(25) == TWO_125;
  }

  /** The last digits of `v`: what the minting loop writes. */
  function Encode(v: nat, n: nat): (s: string)
    ensures |s| == n && Digits(s)
  {
    if n == 0 then [] else
      AlphabetIsTheDigits(v % 32);
      Encode(v / 32, n - 1) + [ALPHABET[v % 32]]
  }

  lemma {:induction false} DecodeBound(s: string)
    requires Digits(s)
    ensures Decode(s) < Pow32(|s|)
  {
    if s != [] {
      DecodeBound(s[..|s| - 1]);
    }
  }

  lemma {:induction false} EncodeDecodes(v: nat, n: nat)
    requires v < Pow32(n)
    ensures Decode(Encode(v, n)) == v
  {
    if n > 0 {
      EncodeDecodes(v / 32, n - 1);
      AlphabetIsTheDigits(v % 32);
      assert Encode(v, n)[..n - 1] == Encode(v / 32, n - 1);
    }
  }

  lemma DigitIsInAlphabet(c: char)
    requires IsDigit(c)
    ensures ALPHABET[DigitValue(c)] == c
  {
    var d := ALPHABET[DigitValue(c)];
    AlphabetIsTheDigits(DigitValue(c));
    DigitOrder(d, c);
    DigitOrder(c, d);
  }

  lemma EncodeStep(w: nat, v: nat, c: char, rest: string, s: string)
    requires IsDigit(c) && w == v * 32 + DigitValue(c) && s == rest + [c] && Encode(v, |rest|) == rest
    ensures Encode(w, |s|) == s
  {
    assert w / 32 == v && w % 32 == DigitValue(c);
    DigitIsInAlphabet(c);
  }

  lemma {:induction false} DecodeEncodes(s: string, w: nat)
    requires Digits(s) && w == Decode(s)
    ensures Encode(w, |s|) == s
  {
    hide Encode;
    if s != [] {
      var rest, last := s[..|s| - 1], s[|s| - 1];
      DecodeEncodes(rest, Decode(rest));
      assert s == rest + [last];
      EncodeStep(w, Decode(rest), last, rest, s);
    }
  }

  /** The first digit carries everything above the low 125 bits. */
  lemma {:induction false} FirstDigit(s: string)
    requires Digits(s) && s != []
    ensures DigitValue(s[0]) * Pow32(|s| - 1) <= Decode(s) < (DigitValue(s[0]) + 1) * Pow32(|s| - 1)
    decreases |s|
  {
    if |s| == 1 {
      assert Decode(s[..0]) == 0;
    } else {
      FirstDigit(s[..|s| - 1]);
      assert s[..|s| - 1][0] == s[0];
      Scale(DigitValue(s[0]), Pow32(|s| - 2), Decode(s[..|s| - 1]), DigitValue(s[|s| - 1]));
    }
  }

  lemma Scale(q: nat, p: nat, v: nat, d: nat)
    requires q * p <= v < (q + 1) * p && d < 32
    ensures q * (p * 32) <= v * 32 + d < (q + 1) * (p * 32)
  {
    assert q * (p * 32) == (q * p) * 32;
    assert (q + 1) * (p * 32) == ((q + 1) * p) * 32;
  }

  lemma DivIs(a: nat, d: nat, q: nat)
    requires d > 0 && q * d <= a < (q + 1) * d
    ensures a / d == q
  {
    var x, y := a / d, a % d;
    assert a == x * d + y && y < d;
    assert x < q ==> (x + 1) * d <= q * d;
    assert x > q ==> (q + 1) * d <= x * d;
  }

  /** `valid_ulid` accepts exactly the texts of 128-bit values. */
  lemma ValidMeans128Bits(id: string)
    ensures ValidUlid(id) <==> |id| == DIGITS && Digits(id) && Decode(id) < TWO_128
    ensures ValidUlid(id) <==> exists v :: 0 <= v < TWO_128 && id == Encode(v, DIGITS)
  {
    Pow32Of26();
    if |id| == DIGITS && Digits(id) {
      FirstDigit(id);
      DecodeEncodes(id, Decode(id));
      assert id[0] in id;
      assert id[0] <= '7' <==> DigitValue(id[0]) <= 7;
      assert 8 * TWO_125 == TWO_128;
    }
    forall v | 0 <= v < TWO_128 && id == Encode(v, DIGITS) ensures ValidUlid(id) {
      EncodeDecodes(v, DIGITS);
    }
  }

  /** Texts of one length sort as their values do. */
  lemma {:induction false} OrderIsNumeric(a: string, b: string)
    requires Digits(a) && Digits(b) && |a| == |b|
    ensures Less(a, b) <==> Decode(a) < Decode(b)
    decreases |a|
  {
    if a != [] {
      var p, q := a[..|a| - 1], b[..|b| - 1];
      var x, y := a[|a| - 1], b[|b| - 1];
      assert a == p + [x] && b == q + [y];
      OrderIsNumeric(p, q);
      OrderIsNumeric(q, p);
      LessByLast(p, x, q, y);
      DigitOrder(x, y);
      LessTrichotomy(p, q);
    }
  }

  lemma {:induction false} LessByLast(p: string, x: char, q: string, y: char)
    requires |p| == |q|
    ensures Less(p + [x], q + [y]) <==> Less(p, q) || (p == q && x < y)
  {
    if p != [] {
      assert (p + [x])[1..] == p[1..] + [x] && (q + [y])[1..] == q[1..] + [y];
      LessByLast(p[1..], x, q[1..], y);
      assert p == [p[0]] + p[1..] && q == [q[0]] + q[1..];
    }
  }

  // ----- minting -----

  /** `to_be_bytes`. */
  function BigEndian(n: nat, width: nat): (r: seq<Byte>)
    ensures |r| == width
  {
    if width == 0 then [] else BigEndian(n / 256, width - 1) + [n % 256]
  }

  /** `from_be_bytes`. */
  function FromBigEndian(bytes: seq<Byte>): nat {
    if bytes == [] then 0 else FromBigEndian(bytes[..|bytes| - 1]) * 256 + bytes[|bytes| - 1]
  }

  lemma {:induction false} BigEndianTail(n: nat, width: nat, k: nat)
    requires k <= width
    ensures BigEndian(n, width)[k..] == BigEndian(n, width - k)
  {
    if k < width {
      BigEndianTail(n / 256, width - 1, k);
      assert BigEndian(n, width)[k..] == BigEndian(n / 256, width - 1)[k..] + [n % 256];
    }
  }

  lemma {:induction false} BigEndianRoundTrip(n: nat, width: nat)
    requires n < Pow256(width)
    ensures FromBigEndian(BigEndian(n, width)) == n
  {
    if width > 0 {
      BigEndianRoundTrip(n / 256, width - 1);
      assert BigEndian(n, width)[..width - 1] == BigEndian(n / 256, width - 1);
    }
  }

  lemma {:induction false} FromBigEndianConcat(a: seq<Byte>, b: seq<Byte>)
    ensures FromBigEndian(a + b) == FromBigEndian(a) * Pow256(|b|) + FromBigEndian(b)
    ensures FromBigEndian(b) < Pow256(|b|)
  {
    if b == [] {
      assert a + b == a;
    } else {
      var init := b[..|b| - 1];
      FromBigEndianConcat(a, init);
      assert (a + b)[..|a + b| - 1] == a + init;
      assert FromBigEndian(a) * (256 * Pow256(|init|)) == FromBigEndian(a) * Pow256(|init|) * 256;
    }
  }

  lemma PowersOf256()
    ensures Pow256(6) == TWO_48 && Pow256(10) == TWO_80
  {
    assert Pow256(3) == 0x100_0000;
    assert Pow256(6) == TWO_48;
    assert Pow256(8) == 0x1_0000_0000_0000_0000;
  }

  /** The value a timestamp and ten random bytes stand for. */
  lemma ValueOf(ms: nat, random: seq<Byte>)
    requires ms < TWO_48 && |random| == 10
    ensures FromBigEndian(BigEndian(ms, 8)[2..] + random) == ms * TWO_80 + FromBigEndian(random) < TWO_128
    ensures FromBigEndian(random) < TWO_80
  {
    PowersOf256();
    BigEndianTail(ms, 8, 2);
    BigEndianRoundTrip(ms, 6);
    FromBigEndianConcat(BigEndian(ms, 6), random);
  }

  /** `mint_id`, given the clock and the random bytes; it fails from the year 10889 on. */
  method MintId(ms: nat, random: seq<Byte>) returns (r: Option<string>)
    requires |random| == 10
    ensures r.Some? <==> ms < TWO_48
    ensures r.Some? ==> ValidUlid(r.value) && Decode(r.value) == ms * TWO_80 + FromBigEndian(random)
  {
    if ms >= TWO_48 {
      return None;
    }
    ValueOf(ms, random);
    var value := FromBigEndian(BigEndian(ms, 8)[2..] + random);
    ghost var whole := value;
    var id := new char[DIGITS];
    var i := DIGITS;
    while i > 0
      invariant 0 <= i <= DIGITS
      invariant Encode(whole, DIGITS) == Encode(value, i) + id[i..]
    {
      i := i - 1;
      id[i] := ALPHABET[value % 32];
      assert id[i..] == [ALPHABET[value % 32]] + id[i + 1..];
      value := value / 32;
    }
    Pow32Of26();
    assert id[..] == id[0..] == Encode(whole, DIGITS);
    EncodeDecodes(whole, DIGITS);
    ValidMeans128Bits(id[..]);
    return Some(id[..]);
  }

  /** Two minted identifiers sort by their timestamps. */
  lemma EarlierSortsFirst(a: string, b: string, ms: nat, later: nat, x: nat, y: nat)
    requires ValidUlid(a) && ValidUlid(b) && ms < later && x < TWO_80 && y < TWO_80
    requires Decode(a) == ms * TWO_80 + x && Decode(b) == later * TWO_80 + y
    ensures Less(a, b)
  {
    OrderIsNumeric(a, b);
    assert (ms + 1) * TWO_80 <= later * TWO_80;
  }

  /** A minted identifier shows its timestamp, and two that agree were minted from the same timestamp and bytes. */
  lemma TimestampIsReadable(id: string, ms: nat, x: nat)
    requires ValidUlid(id) && x < TWO_80 && Decode(id) == ms * TWO_80 + x
    ensures Decode(id) / TWO_80 == ms && Decode(id) % TWO_80 == x
  {
    DivIs(Decode(id), TWO_80, ms);
  }

  /** Crockford's base 32: digits and capital letters, but for I, L, O and U. */
  lemma CrockfordDigits(c: char)
    ensures IsDigit(c) <==> ('0' <= c <= '9' || 'A' <= c <= 'Z') && c !in "ILOU"
    ensures IsDigit(c) <==> c in ALPHABET
  {
    if IsDigit(c) { DigitIsInAlphabet(c); }
    if c in ALPHABET {
      var d: nat :| d < |ALPHABET| && ALPHABET[d] == c;
      AlphabetIsTheDigits(d);
    }
  }
}
