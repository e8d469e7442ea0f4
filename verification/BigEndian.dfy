/** Fixed-width big-endian numbers, as used by the frame header and by the offline-queue stamp. */
module BigEndian {

  type Byte = b: int | 0 <= b < 256

  function Pow256(k: nat): (p: nat)
    ensures p > 0
  {
    if k == 0 then 1 else 256 * Pow256(k - 1)
  }

  function Encode(n: nat, k: nat): (s: seq<Byte>)
    ensures |s| == k
  {
    if k == 0 then [] else Encode(n / 256, k - 1) + [n % 256]
  }

  function Decode(s: seq<Byte>): nat {
    if s == [] then 0 else 256 * Decode(s[..|s| - 1]) + s[|s| - 1]
  }

  lemma {:induction false} DecodeEncode(n: nat, k: nat)
    requires n < Pow256(k)
    ensures Decode(Encode(n, k)) == n
  {
    if k > 0 {
      DecodeEncode(n / 256, k - 1);
      assert Encode(n, k)[..k - 1] == Encode(n / 256, k - 1);
    }
  }

  lemma {:induction false} EncodeDecode(s: seq<Byte>)
    ensures Decode(s) < Pow256(|s|)
    ensures Encode(Decode(s), |s|) == s
  {
    if s != [] {
      EncodeDecode(s[..|s| - 1]);
    }
  }

  /** The four low bytes, the most significant one first. */
  function LowBytes(n: nat): seq<Byte> {
    [n / 0x100_0000 % 256, n / 0x1_0000 % 256, n / 0x100 % 256, n % 256]
  }

  lemma FourMore(n: nat, k: nat)
    ensures Encode(n, k + 4) ==
            Encode(n / 0x1_0000_0000, k) + LowBytes(n)
  {
    var a, b, c := n / 0x100, n / 0x1_0000, n / 0x100_0000;
    assert a / 256 == b && b / 256 == c && c / 256 == n / 0x1_0000_0000;
    EncodeMore(c, k);
    EncodeMore(b, k + 1);
    EncodeMore(a, k + 2);
    EncodeMore(n, k + 3);
    hide Encode;
  }

  lemma EncodeMore(n: nat, k: nat)
    ensures Encode(n, k + 1) == Encode(n / 256, k) + [n % 256]
  {
  }

  /** The byte order: the most significant byte comes first. */
  lemma BigEndianBytes(n: nat)
    ensures Encode(n, 4) == LowBytes(n)
    ensures Encode(n, 8) == LowBytes(n / 0x1_0000_0000) + LowBytes(n)
  {
    var high := n / 0x1_0000_0000;
    FourMore(high, 0);
    FourMore(n, 0);
    FourMore(n, 4);
    assert forall m: nat :: Encode(m, 0) == [];
    hide Encode, LowBytes;
  }

  lemma Widths()
    ensures Pow256(4) == 0x1_0000_0000
    ensures Pow256(8) == 0x1_0000_0000_0000_0000
  {
    assert Pow256(2) == 0x1_0000;
    assert Pow256(4) == 256 * (256 * Pow256(2));
    assert Pow256(6) == 256 * (256 * Pow256(4));
    assert Pow256(8) == 256 * (256 * Pow256(6));
  }
}
