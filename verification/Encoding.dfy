/**
 The byte encodings `src/audit_chain.rs` feeds to its hash: lower-case
 hexadecimal, big-endian words and decimal numbers, each with the round trip or
 injectivity the chain relies on.
 */
module Encoding {
  import opened Decimals
  import opened Options

  type Byte = b: int | 0 <= b < 256
  type Bytes = seq<Byte>

  // ---------------------------------------------------------------------------
  // Hexadecimal
  // ---------------------------------------------------------------------------

  function HexDigit(n: int): Byte
    requires 0 <= n < 16
  {
    if n < 10 then 48 + n else 87 + n
  }

  /** `hex::decode` takes both cases. */
  function HexValue(c: Byte): Option<int> {
    if 48 <= c <= 57 then Some(c - 48)
    else if 97 <= c <= 102 then Some(c - 87)
    else if 65 <= c <= 70 then Some(c - 55)
    else None
  }

  function HexEncode(bs: Bytes): (r: Bytes)
    ensures |r| == 2 * |bs|
  {
    if bs == [] then [] else [HexDigit(bs[0] / 16), HexDigit(bs[0] % 16)] + HexEncode(bs[1..])
  }

  function HexDecode(s: Bytes): Option<Bytes> {
    if s == [] then Some([])
    else if |s| == 1 then None
    else
      match (HexValue(s[0]), HexValue(s[1]), HexDecode(s[2..]))
      case (Some(h), Some(l), Some(rest)) => if 0 <= h < 16 && 0 <= l < 16 then Some([16 * h + l] + rest) else None
      case _ => None
  }

  /** The digits are written in lower case and read in either case, and nothing else is a digit. */
  lemma HexDigitsAre(c: Byte, n: int)
    requires 0 <= n < 16
    ensures HexDigit(n) == "0123456789abcdef"[n] as int
    ensures HexValue(c) == Some(n) <==> c == HexDigit(n) || (n >= 10 && c == HexDigit(n) - 32)
    ensures HexValue(c).Some? ==> 0 <= HexValue(c).value < 16
  {
  }

  lemma {:induction false} HexRoundTrip(bs: Bytes)
    ensures HexDecode(HexEncode(bs)) == Some(bs)
  {
    if bs != [] {
      var s := HexEncode(bs);
      HexRoundTrip(bs[1..]);
      assert s[2..] == HexEncode(bs[1..]);
      assert HexValue(s[0]) == Some(bs[0] / 16) && HexValue(s[1]) == Some(bs[0] % 16);
      assert [16 * (bs[0] / 16) + bs[0] % 16] + bs[1..] == bs;
    }
  }

  lemma {:induction false} HexHoldsNoZero(bs: Bytes)
    ensures 0 !in HexEncode(bs)
  {
    if bs != [] { HexHoldsNoZero(bs[1..]); }
  }

  lemma HexInjective(a: Bytes, b: Bytes)
    requires HexEncode(a) == HexEncode(b)
    ensures a == b
  {
    HexRoundTrip(a);
    HexRoundTrip(b);
  }

  // ---------------------------------------------------------------------------
  // Big-endian words
  // ---------------------------------------------------------------------------

  function BigEndian(n: nat, k: nat): (r: Bytes)
    ensures |r| == k
  {
    if k == 0 then [] else BigEndian(n / 256, k - 1) + [n % 256]
  }

  function Pow256(k: nat): nat {
    if k == 0 then 1 else 256 * Pow256(k - 1)
  }

  lemma {:induction false} BigEndianInjective(m: nat, n: nat, k: nat)
    requires m < Pow256(k) && n < Pow256(k) && BigEndian(m, k) == BigEndian(n, k)
    ensures m == n
  {
    if k > 0 {
      var a, b := BigEndian(m, k), BigEndian(n, k);
      assert a[..k - 1] == BigEndian(m / 256, k - 1) && b[..k - 1] == BigEndian(n / 256, k - 1);
      assert a[k - 1] == m % 256 && b[k - 1] == n % 256;
      BigEndianInjective(m / 256, n / 256, k - 1);
    }
  }

  lemma {:induction false} ZeroWord(k: nat)
    ensures forall i | 0 <= i < k :: BigEndian(0, k)[i] == 0
  {
    if k > 0 { ZeroWord(k - 1); }
  }

  // ---------------------------------------------------------------------------
  // Decimal numbers
  // ---------------------------------------------------------------------------

  const COLON: Byte := 58

  function Ascii(digits: string): (r: Bytes)
    requires AllDigits(digits)
    ensures |r| == |digits| && COLON !in r
    ensures forall i | 0 <= i < |r| :: r[i] == digits[i] as int
  {
    seq(|digits|, i requires 0 <= i < |digits| => digits[i] as int)
  }

  /** The bytes of a number's numeral. */
  function Decimal(n: nat): (r: Bytes)
    ensures r != [] && COLON !in r
  {
    ShownReads(n);
    Ascii(Shown(n))
  }

  lemma AsciiInjective(a: string, b: string)
    requires AllDigits(a) && AllDigits(b) && Ascii(a) == Ascii(b)
    ensures a == b
  {
    forall i | 0 <= i < |a| ensures a[i] == b[i] { assert Ascii(a)[i] == Ascii(b)[i]; }
  }

  lemma DecimalInjective(m: nat, n: nat)
    requires Decimal(m) == Decimal(n)
    ensures m == n
  {
    ShownReads(m);
    ShownReads(n);
    AsciiInjective(Shown(m), Shown(n));
    ShownInjective(m, n);
  }

  // ---------------------------------------------------------------------------
  // Framing
  // ---------------------------------------------------------------------------

  /** Fields of known length can be told apart again. */
  lemma ConcatSplit(a: Bytes, b: Bytes, c: Bytes, d: Bytes)
    requires a + b == c + d && |a| == |c|
    ensures a == c && b == d
  {
    assert (a + b)[..|a|] == a && (c + d)[..|c|] == c;
    assert (a + b)[|a|..] == b && (c + d)[|c|..] == d;
  }

  lemma FirstStop(a: Bytes, b: Bytes, stop: Byte)
    requires stop !in a && b != [] && b[0] == stop
    ensures (a + b)[|a|] == stop && forall i | 0 <= i < |a| :: (a + b)[i] != stop
  {
  }

  /** A field that ends where a byte it does not hold comes next can be told apart too. */
  lemma DelimitedSplit(a: Bytes, b: Bytes, c: Bytes, d: Bytes, stop: Byte)
    requires a + b == c + d && stop !in a && stop !in c
    requires b != [] && b[0] == stop && d != [] && d[0] == stop
    ensures a == c && b == d
  {
    FirstStop(a, b, stop);
    FirstStop(c, d, stop);
    ConcatSplit(a, b, c, d);
  }
}
