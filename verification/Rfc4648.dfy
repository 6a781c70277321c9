/** The encoding against its standard: section 5 of RFC 4648, written down bit by bit. */
module Rfc4648 {
  import opened Base64Url

  /** Table 2: A to Z, a to z, 0 to 9, minus and underline. */
  function Table(v: Sextet): char {
    match v
    case 62 => '-'
    case 63 => '_'
    case _ =>
      if v <= 25 then 'A' + v as char
      else if v <= 51 then 'a' + (v - 26) as char
      else '0' + (v - 52) as char
  }

  /** `b` shifted right by `k` bits. */
  function Shifted(b: int, k: nat): int
    requires 0 <= b
  {
    if k == 0 then b else Shifted(b, k - 1) / 2
  }

  /** Bit `j` of the bytes, the most significant bit of each byte first; zero past the end. */
  function Bit(bytes: seq<Byte>, j: nat): int {
    if j / 8 < |bytes| then Shifted(bytes[j / 8], 7 - j % 8) % 2 else 0
  }

  /** The six bits from position `j` on, as a number. */
  function SixBits(bytes: seq<Byte>, j: nat): int {
    32 * Bit(bytes, j) + 16 * Bit(bytes, j + 1) + 8 * Bit(bytes, j + 2)
    + 4 * Bit(bytes, j + 3) + 2 * Bit(bytes, j + 4) + Bit(bytes, j + 5)
  }

  /** One character for every six bits, the last of them filled up with zeros. */
  function Characters(n: nat): nat { (8 * n + 5) / 6 }

  lemma {:induction false} ShiftedIs(b: Byte)
    ensures Shifted(b, 2) == b / 4 && Shifted(b, 4) == b / 16 && Shifted(b, 6) == b / 64 && Shifted(b, 8) == 0
  {
    assert Shifted(b, 1) == b / 2;
    assert Shifted(b, 3) == Shifted(b, 2) / 2;
    assert Shifted(b, 5) == Shifted(b, 4) / 2;
    assert Shifted(b, 7) == Shifted(b, 6) / 2;
  }

  /** Shifting out one bit. */
  lemma OneBit(b: Byte, k: nat)
    ensures Shifted(b, k) == 2 * Shifted(b, k + 1) + Shifted(b, k) % 2
  {
  }

  function B(b: Byte, k: nat): int { Shifted(b, k) % 2 }

  /** The upper and the lower bits of a byte, as the regrouping cuts it. */
  lemma {:induction false} Cuts(b: Byte)
    ensures 32 * B(b, 7) + 16 * B(b, 6) + 8 * B(b, 5) + 4 * B(b, 4) + 2 * B(b, 3) + B(b, 2) == b / 4
    ensures 8 * B(b, 7) + 4 * B(b, 6) + 2 * B(b, 5) + B(b, 4) == b / 16
    ensures 2 * B(b, 7) + B(b, 6) == b / 64
    ensures 2 * B(b, 1) + B(b, 0) == b % 4
    ensures 8 * B(b, 3) + 4 * B(b, 2) + 2 * B(b, 1) + B(b, 0) == b % 16
    ensures 32 * B(b, 5) + 16 * B(b, 4) + 8 * B(b, 3) + 4 * B(b, 2) + 2 * B(b, 1) + B(b, 0) == b % 64
  {
    ShiftedIs(b);
    OneBit(b, 7);
    OneBit(b, 6);
    OneBit(b, 5);
    OneBit(b, 4);
    OneBit(b, 3);
    OneBit(b, 2);
    OneBit(b, 1);
    OneBit(b, 0);
    assert Shifted(b, 0) == b;
    hide Shifted;
    assert b == 4 * (b / 4) + b % 4 && b == 16 * (b / 16) + b % 16 && b == 64 * (b / 64) + b % 64;
  }

  function At(bytes: seq<Byte>, i: nat): Byte { if i < |bytes| then bytes[i] else 0 }

  /** The four groups of six bits in three bytes are those of the regrouping. */
  lemma FirstGroups(bytes: seq<Byte>)
    requires bytes != []
    ensures SixBits(bytes, 0) == First(At(bytes, 0)) && SixBits(bytes, 6) == Second(At(bytes, 0), At(bytes, 1))
    ensures SixBits(bytes, 12) == Third(At(bytes, 1), At(bytes, 2)) && SixBits(bytes, 18) == Fourth(At(bytes, 2))
  {
    var x, y, z := At(bytes, 0), At(bytes, 1), At(bytes, 2);
    BitsOf(bytes, 0);
    BitsOf(bytes, 1);
    BitsOf(bytes, 2);
    Cuts(x);
    Cuts(y);
    Cuts(z);
    hide Bit, B;
  }

  lemma {:induction false} BitsOf(bytes: seq<Byte>, i: nat)
    requires i <= 2
    ensures var b := At(bytes, i);
            && Bit(bytes, 8 * i) == B(b, 7) && Bit(bytes, 8 * i + 1) == B(b, 6) && Bit(bytes, 8 * i + 2) == B(b, 5)
            && Bit(bytes, 8 * i + 3) == B(b, 4) && Bit(bytes, 8 * i + 4) == B(b, 3) && Bit(bytes, 8 * i + 5) == B(b, 2)
            && Bit(bytes, 8 * i + 6) == B(b, 1) && Bit(bytes, 8 * i + 7) == B(b, 0)
  {
    if i >= |bytes| { ZeroShifts(); }
    hide Shifted;
    assert (8 * i) / 8 == i && (8 * i + 1) / 8 == i && (8 * i + 2) / 8 == i && (8 * i + 3) / 8 == i;
    assert (8 * i + 4) / 8 == i && (8 * i + 5) / 8 == i && (8 * i + 6) / 8 == i && (8 * i + 7) / 8 == i;
  }

  lemma {:induction false} ZeroShifts()
    ensures forall k: nat :: Shifted(0, k) == 0
  {
    forall k: nat ensures Shifted(0, k) == 0 { ZeroShift(k); }
  }

  lemma {:induction false} ZeroShift(k: nat)
    ensures Shifted(0, k) == 0
  {
    if k > 0 { ZeroShift(k - 1); }
  }

  lemma BitShift(bytes: seq<Byte>, j: nat)
    requires |bytes| >= 3
    ensures Bit(bytes, j + 24) == Bit(bytes[3..], j)
  {
    assert (j + 24) / 8 == j / 8 + 3 && (j + 24) % 8 == j % 8;
    if j / 8 < |bytes| - 3 { assert bytes[3..][j / 8] == bytes[j / 8 + 3]; }
  }

  lemma SixBitsShift(bytes: seq<Byte>, j: nat)
    requires |bytes| >= 3
    ensures SixBits(bytes, j + 24) == SixBits(bytes[3..], j)
  {
    hide Bit;
    BitShift(bytes, j);
    BitShift(bytes, j + 1);
    BitShift(bytes, j + 2);
    BitShift(bytes, j + 3);
    BitShift(bytes, j + 4);
    BitShift(bytes, j + 5);
  }

  function UrlChar(c: char): char { if c == '+' then '-' else if c == '/' then '_' else c }

  /** The relay's characters are those of the table. */
  lemma AlphabetIs(v: Sextet)
    ensures UrlChar(Char64(v)) == Table(v)
  {
  }

  lemma UrlSafeAt(s: string, i: nat)
    requires i < |s|
    ensures |UrlSafe(s)| == |s| && UrlSafe(s)[i] == UrlChar(s[i])
  {
  }

  /** Every character of `btoa` before the padding stands for its six bits. */
  lemma {:induction false} BtoaIsSixBits(bytes: seq<Byte>, k: nat)
    requires k < Characters(|bytes|)
    ensures Latin1(Binary(bytes)) && k < |Btoa(Binary(bytes))|
    ensures 0 <= SixBits(bytes, 6 * k) < 64 && Btoa(Binary(bytes))[k] == Char64(SixBits(bytes, 6 * k))
    decreases |bytes|
  {
    BinaryIsLatin1(bytes);
    hide SixBits, First, Second, Third, Fourth, Char64, Bit;
    assert bytes != [];
    FirstGroups(bytes);
    if k >= 4 {
      assert |bytes| > 3;
      assert Binary(bytes)[3..] == Binary(bytes[3..]);
      BtoaIsSixBits(bytes[3..], k - 4);
      SixBitsShift(bytes, 6 * (k - 4));
      assert 6 * (k - 4) + 24 == 6 * k;
    } else {
      assert k == 0 || k == 1 || k == 2 || k == 3;
    }
  }

  /** The encoding is the standard's: for every byte sequence, one character of the
      table for every six bits, and nothing else. */
  lemma {:induction false} EncodingFollowsStandard(bytes: seq<Byte>)
    ensures |Encoded(bytes)| == Characters(|bytes|)
    ensures forall k :: 0 <= k < |Encoded(bytes)| ==>
              0 <= SixBits(bytes, 6 * k) < 64 && Encoded(bytes)[k] == Table(SixBits(bytes, 6 * k))
  {
    BinaryIsLatin1(bytes);
    hide SixBits, Btoa, Binary, Char64, Stripped, UrlSafe, Standard, Repadded, Table;
    RepaddingRestores(bytes);
    var e := Btoa(Binary(bytes));
    BtoaLength(bytes);
    BtoaShape(Binary(bytes));
    assert |Binary(bytes)| == |bytes| by { BinaryLength(bytes); }
    var n := |e| - Padding(|bytes|);
    PaddingNotThree(|bytes|);
    StripsTo(e, n);
    forall k | 0 <= k < n
      ensures 0 <= SixBits(bytes, 6 * k) < 64 && Encoded(bytes)[k] == Table(SixBits(bytes, 6 * k))
    {
      BtoaIsSixBits(bytes, k);
      UrlSafeAt(e, k);
      AlphabetIs(SixBits(bytes, 6 * k));
    }
  }

  lemma {:induction false} BtoaLength(bytes: seq<Byte>)
    ensures Latin1(Binary(bytes)) && |Btoa(Binary(bytes))| - Padding(|bytes|) == Characters(|bytes|)
    decreases |bytes|
  {
    BinaryIsLatin1(bytes);
    hide First, Second, Third, Fourth, Char64;
    if |bytes| >= 3 {
      assert Binary(bytes)[3..] == Binary(bytes[3..]);
      BtoaLength(bytes[3..]);
      assert Padding(|bytes|) == Padding(|bytes[3..]|) && Characters(|bytes|) == Characters(|bytes[3..]|) + 4;
    }
  }
}
