/** Big-endian byte strings, as uint256 and big.Int read and write them. */
module BigEndian {
  import opened Words

  function Pow256(n: nat): (p: nat)
    ensures 1 <= p
  {
    if n == 0 then 1 else 256 * Pow256(n - 1)
  }

  /** The n low-order bytes of v, most significant first. */
  function ToBytes(v: nat, n: nat): (s: seq<byte>)
    ensures |s| == n
  {
    if n == 0 then [] else ToBytes(v / 256, n - 1) + [v % 256]
  }

  /** SetBytes: the number that s spells. */
  function FromBytes(s: seq<byte>): nat {
    if s == [] then 0 else 256 * FromBytes(s[..|s| - 1]) + s[|s| - 1]
  }

  lemma {:induction false} FromBytesBound(s: seq<byte>)
    ensures FromBytes(s) < Pow256(|s|)
  {
    if s != [] {
      FromBytesBound(s[..|s| - 1]);
    }
  }

  lemma {:induction false} FromToBytes(v: nat, n: nat)
    requires v < Pow256(n)
    ensures FromBytes(ToBytes(v, n)) == v
  {
    if n != 0 {
      FromToBytes(v / 256, n - 1);
      assert ToBytes(v, n)[..n - 1] == ToBytes(v / 256, n - 1);
    }
  }

  lemma {:induction false} ToFromBytes(s: seq<byte>)
    ensures ToBytes(FromBytes(s), |s|) == s
  {
    if s != [] {
      ToFromBytes(s[..|s| - 1]);
      assert s == s[..|s| - 1] + [s[|s| - 1]];
    }
  }

  /** (BitLen + 7) / 8: how many bytes a number occupies. */
  function ByteLen(w: nat): nat {
    if w == 0 then 0 else 1 + ByteLen(w / 256)
  }

  /** Bytes() of a big.Int: no leading zero. */
  function MinimalBytes(w: nat): seq<byte> {
    ToBytes(w, ByteLen(w))
  }

  /** Padded with zeros to n bytes, those are the n low-order bytes. */
  lemma {:induction false} PaddedIsToBytes(w: nat, n: nat, padding: seq<byte>)
    requires w < Pow256(n) && |padding| == n - ByteLen(w) && forall i | 0 <= i < |padding| :: padding[i] == 0
    ensures padding + MinimalBytes(w) == ToBytes(w, n)
  {
    if n != 0 {
      if w == 0 {
        PaddedIsToBytes(0, n - 1, padding[..n - 1]);
      } else {
        PaddedIsToBytes(w / 256, n - 1, padding);
        assert MinimalBytes(w) == MinimalBytes(w / 256) + [w % 256];
      }
    }
  }

  lemma {:induction false} ByteLenBound(w: nat, n: nat)
    requires w < Pow256(n)
    ensures ByteLen(w) <= n
  {
    if w != 0 {
      ByteLenBound(w / 256, n - 1);
    }
  }

  lemma {:induction false} ByteLenSuffices(w: nat)
    ensures w < Pow256(ByteLen(w))
  {
    if w != 0 {
      ByteLenSuffices(w / 256);
    }
  }

  lemma Pow256Of32()
    ensures Pow256(32) == TWO_256
  {
    assert Pow256(4) == 0x1_0000_0000;
    assert Pow256(8) == 0x1_0000_0000_0000_0000 by { assert Pow256(6) == 0x1_0000_0000_0000; }
    Pow256Sum(8, 8);
    Pow256Sum(16, 16);
  }

  lemma {:induction false} Pow256Sum(m: nat, n: nat)
    ensures Pow256(m + n) == Pow256(m) * Pow256(n)
  {
    if m != 0 {
      Pow256Sum(m - 1, n);
      assert 256 * (Pow256(m - 1) * Pow256(n)) == (256 * Pow256(m - 1)) * Pow256(n);
    }
  }
}
