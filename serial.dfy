/** big.Int.SetBytes: a byte string read as an unsigned big-endian integer, the way
    the CA certificate's serial number is made from the sixteen bytes of a UUID. */
module Serial {
  import opened Base

  function Pow256(k: nat): (p: nat)
    ensures p >= 1
  {
    if k == 0 then 1 else 256 * Pow256(k - 1)
  }

  /** The value of `s` as an unsigned big-endian number: the last byte is the least
      significant. */
  function BigEndian(s: Bytes): nat
    decreases |s|
  {
    if s == [] then 0 else BigEndian(s[..|s| - 1]) * 256 + s[|s| - 1] as nat
  }

  /** `k` bytes hold every number below 256^k and nothing above. */
  lemma {:induction false} BigEndianBound(s: Bytes)
    ensures BigEndian(s) < Pow256(|s|)
    decreases |s|
  {
    if s != [] {
      BigEndianBound(s[..|s| - 1]);
    }
  }

  /** The first byte is the most significant: it weighs 256^(number of bytes after it). */
  lemma {:induction false} BigEndianLeading(b: byte, s: Bytes)
    ensures BigEndian([b] + s) == b as nat * Pow256(|s|) + BigEndian(s)
    decreases |s|
  {
    if s != [] {
      var t := s[..|s| - 1];
      assert ([b] + s)[..|s|] == [b] + t;
      BigEndianLeading(b, t);
    }
  }

  /** The `k`-byte big-endian representation of `n` (n mod 256^k). */
  function ToBigEndian(n: nat, k: nat): (s: Bytes)
    ensures |s| == k
  {
    if k == 0 then [] else ToBigEndian(n / 256, k - 1) + [(n % 256) as byte]
  }

  lemma DivModStep(high: nat, low: nat)
    requires low < 256
    ensures (high * 256 + low) / 256 == high && (high * 256 + low) % 256 == low
  {
  }

  /** Reading bytes as a number and writing the number back gives the same bytes. */
  lemma {:induction false} BytesRoundTrip(s: Bytes)
    ensures ToBigEndian(BigEndian(s), |s|) == s
    decreases |s|
  {
    if s != [] {
      var t := s[..|s| - 1];
      var last := s[|s| - 1];
      BytesRoundTrip(t);
      DivModStep(BigEndian(t), last as nat);
      assert ToBigEndian(BigEndian(s), |s|) == ToBigEndian(BigEndian(t), |t|) + [last];
      assert s == t + [last];
    }
  }

  /** Every number below 256^k is the value of its own `k`-byte representation. */
  lemma {:induction false} NumberRoundTrip(n: nat, k: nat)
    requires n < Pow256(k)
    ensures BigEndian(ToBigEndian(n, k)) == n
    decreases k
  {
    if k > 0 {
      NumberRoundTrip(n / 256, k - 1);
      var s := ToBigEndian(n, k);
      assert s[..|s| - 1] == ToBigEndian(n / 256, k - 1);
    }
  }

  /** big.Int.SetBytes: accumulates the bytes most significant first. */
  method SetBytes(buf: Bytes) returns (z: nat)
    ensures z == BigEndian(buf)
    ensures z < Pow256(|buf|)
  {
    z := 0;
    for i := 0 to |buf|
      invariant z == BigEndian(buf[..i])
    {
      assert buf[..i + 1][..i] == buf[..i];
      z := z * 256 + buf[i] as nat;
    }
    assert buf[..|buf|] == buf;
    BigEndianBound(buf);
  }
}
