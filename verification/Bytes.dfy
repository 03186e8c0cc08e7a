/** Fixed-width integers, byte strings, and the big- and little-endian encodings
    that the contract's ABI and the wire frames are built from. */
module Bytes {
  const TWO_32: nat := 0x1_0000_0000
  const TWO_64: nat := 0x1_0000_0000_0000_0000
  const TWO_128: nat := 0x1_0000_0000_0000_0000_0000_0000_0000_0000
  const TWO_256: nat := 0x1_0000_0000_0000_0000_0000_0000_0000_0000_0000_0000_0000_0000_0000_0000_0000_0000

  type byte = b: int | 0 <= b < 256
  type u32 = x: int | 0 <= x < TWO_32
  type u64 = x: int | 0 <= x < TWO_64
  type u128 = x: int | 0 <= x < TWO_128
  type u256 = x: int | 0 <= x < TWO_256

  type bytes = seq<byte>
  type Bytes32 = s: bytes | |s| == 32 witness seq(32, _ => 0)
  type Address = s: bytes | |s| == 20 witness seq(20, _ => 0)

  datatype Option<+T> = None | Some(value: T)
  datatype Result<+T, +E> = Ok(value: T) | Err(error: E)

  function Zeros(n: nat): (s: bytes)
    ensures |s| == n
  {
    seq(n, _ => 0)
  }

  const ZERO_ADDRESS: Address := Zeros(20)

  /** 256 to the power k: the number of values that k bytes can hold. */
  function Pow256(k: nat): (p: nat)
    ensures p >= 1
  {
    if k == 0 then 1 else 256 * Pow256(k - 1)
  }

  lemma PowerValues()
    ensures Pow256(4) == TWO_32
    ensures Pow256(8) == TWO_64
    ensures Pow256(16) == TWO_128
    ensures Pow256(32) == TWO_256
  {
    PowerSum(16, 16);
  }

  lemma {:induction false} PowerSum(a: nat, b: nat)
    ensures Pow256(a + b) == Pow256(a) * Pow256(b)
  {
    if a > 0 {
      PowerSum(a - 1, b);
    }
  }

  // ---------------------------------------------------------------- big-endian

  /** The low k bytes of n, most significant first. */
  function ToBE(n: nat, k: nat): (s: bytes)
    ensures |s| == k
  {
    if k == 0 then [] else ToBE(n / 256, k - 1) + [n % 256]
  }

  function FromBE(s: bytes): (n: nat)
  {
    if s == [] then 0 else 256 * FromBE(s[..|s| - 1]) + s[|s| - 1]
  }

  /** Encoding then decoding keeps every number that fits. */
  lemma {:induction false} FromToBE(n: nat, k: nat)
    requires n < Pow256(k)
    ensures FromBE(ToBE(n, k)) == n
  {
    if k > 0 {
      var s := ToBE(n, k);
      assert s[..|s| - 1] == ToBE(n / 256, k - 1);
      FromToBE(n / 256, k - 1);
    }
  }

  /** Decoding loses nothing, and never leaves the range that the bytes can hold. */
  lemma {:induction false} ToFromBE(s: bytes)
    ensures FromBE(s) < Pow256(|s|)
    ensures ToBE(FromBE(s), |s|) == s
  {
    if s != [] {
      var front := s[..|s| - 1];
      ToFromBE(front);
      assert FromBE(s) / 256 == FromBE(front) && FromBE(s) % 256 == s[|s| - 1];
      assert s == front + [s[|s| - 1]];
    }
  }

  /** Two numbers with the same k-byte encoding are the same number. */
  lemma ToBEInjective(m: nat, n: nat, k: nat)
    requires m < Pow256(k) && n < Pow256(k) && ToBE(m, k) == ToBE(n, k)
    ensures m == n
  {
    FromToBE(m, k);
    FromToBE(n, k);
  }

  // ------------------------------------------------------------- little-endian

  /** The low k bytes of n, least significant first. */
  function ToLE(n: nat, k: nat): (s: bytes)
    ensures |s| == k
  {
    if k == 0 then [] else [n % 256] + ToLE(n / 256, k - 1)
  }

  function FromLE(s: bytes): (n: nat)
  {
    if s == [] then 0 else s[0] + 256 * FromLE(s[1..])
  }

  lemma {:induction false} FromToLE(n: nat, k: nat)
    requires n < Pow256(k)
    ensures FromLE(ToLE(n, k)) == n
  {
    if k > 0 {
      assert ToLE(n, k)[1..] == ToLE(n / 256, k - 1);
      FromToLE(n / 256, k - 1);
    }
  }

  lemma {:induction false} ToFromLE(s: bytes)
    ensures FromLE(s) < Pow256(|s|)
    ensures ToLE(FromLE(s), |s|) == s
  {
    if s != [] {
      ToFromLE(s[1..]);
      assert s == [s[0]] + s[1..];
    }
  }

  // --------------------------------------------------------------- order of the bytes

  /** Big-endian: the first byte weighs most. */
  lemma {:induction false} FirstByteWeighsMost(s: bytes)
    requires s != []
    ensures FromBE(s) == s[0] * Pow256(|s| - 1) + FromBE(s[1..])
  {
    var front := s[..|s| - 1];
    if front != [] {
      FirstByteWeighsMost(front);
      assert s[1..][..|s| - 2] == front[1..];
      assert s[0] * Pow256(|s| - 1) == 256 * (s[0] * Pow256(|s| - 2));
    }
  }

  /** Little-endian: the last byte weighs most. */
  lemma {:induction false} LastByteWeighsMost(s: bytes)
    requires s != []
    ensures FromLE(s) == s[|s| - 1] * Pow256(|s| - 1) + FromLE(s[..|s| - 1])
  {
    var rest := s[1..];
    if rest != [] {
      LastByteWeighsMost(rest);
      assert s[..|s| - 1][1..] == rest[..|rest| - 1];
      assert s[|s| - 1] * Pow256(|s| - 1) == 256 * (s[|s| - 1] * Pow256(|s| - 2));
    }
  }

  // -------------------------------------------------- concatenation of two parts

  /** Two splits of the same string at the same place have the same parts. */
  lemma ConcatInjective(a: bytes, b: bytes, c: bytes, d: bytes)
    requires |a| == |c| && a + b == c + d
    ensures a == c && b == d
  {
    assert a == (a + b)[..|a|] && b == (a + b)[|a|..];
    assert c == (c + d)[..|a|] && d == (c + d)[|a|..];
  }
}
