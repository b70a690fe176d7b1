/** Bytes and the fixed-width little-endian encoding used for slot length prefixes. */
module Bytes {
  newtype byte = x: int | 0 <= x < 256

  /** 256^k: the number of values k bytes can hold. */
  function Pow256(k: nat): (r: nat)
    ensures r > 0
  {
    if k == 0 then 1 else 256 * Pow256(k - 1)
  }

  /** The k-byte little-endian encoding of n (bits above 8k are dropped). */
  function EncodeLE(n: nat, k: nat): (r: seq<byte>)
    ensures |r| == k
  {
    if k == 0 then [] else [(n % 256) as byte] + EncodeLE(n / 256, k - 1)
  }

  /** The number a little-endian byte sequence denotes. */
  function DecodeLE(bs: seq<byte>): (r: nat)
    ensures r < Pow256(|bs|)
  {
    if bs == [] then 0 else bs[0] as nat + 256 * DecodeLE(bs[1..])
  }

  lemma {:induction false} DecodeEncodeLE(n: nat, k: nat)
    requires n < Pow256(k)
    ensures DecodeLE(EncodeLE(n, k)) == n
  {
    if k > 0 {
      var e := EncodeLE(n, k);
      assert e[1..] == EncodeLE(n / 256, k - 1);
      assert n / 256 < Pow256(k - 1);
      DecodeEncodeLE(n / 256, k - 1);
    }
  }

  lemma {:induction false} EncodeDecodeLE(bs: seq<byte>)
    ensures EncodeLE(DecodeLE(bs), |bs|) == bs
  {
    if bs != [] {
      var d := DecodeLE(bs[1..]);
      assert (bs[0] as nat + 256 * d) % 256 == bs[0] as nat;
      assert (bs[0] as nat + 256 * d) / 256 == d;
      EncodeDecodeLE(bs[1..]);
    }
  }

  /** Width in bytes of the slot length prefix (sizeof(uint32_t)). */
  const PrefixSize: nat := 4

  /** The 4-byte length prefix written in front of every stored chunk. */
  function Prefix(n: nat): (r: seq<byte>)
    requires n < Pow256(PrefixSize)
    ensures |r| == PrefixSize && DecodeLE(r) == n
  {
    DecodeEncodeLE(n, PrefixSize);
    EncodeLE(n, PrefixSize)
  }
}
