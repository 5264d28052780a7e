/** Vocabulary shared by the byte-level models: octets, optional values, powers of two and
    the narrowing of wide integers to a C `int`. */
module Common {
  type byte = x: int | 0 <= x < 256

  datatype Option<+T> = None | Some(value: T)

  function Pow2(n: nat): (r: nat)
    ensures r >= 1
  {
    if n == 0 then 1 else 2 * Pow2(n - 1)
  }

  function Pow256(n: nat): (r: nat)
    ensures r >= 1
    decreases n, 0
  {
    if n == 0 then 1 else 256 * Pow256(n - 1)
  }

  /** The number written in big-endian octets. */
  function BE(s: seq<byte>): nat {
    if s == [] then 0 else 256 * BE(s[..|s| - 1]) + s[|s| - 1]
  }

  /** The low k octets of n, big-endian. */
  function BEBytes(k: nat, n: nat): (r: seq<byte>)
    ensures |r| == k
    decreases k, n
  {
    if k == 0 then [] else BEBytes(k - 1, n / 256) + [n % 256]
  }

  lemma {:induction false} BEInverse(k: nat, n: nat)
    requires n < Pow256(k)
    ensures BE(BEBytes(k, n)) == n
  {
    if k > 0 {
      BEInverse(k - 1, n / 256);
      assert BEBytes(k, n)[..k - 1] == BEBytes(k - 1, n / 256);
    }
  }

  lemma {:induction false} BEBound(s: seq<byte>)
    ensures BE(s) < Pow256(|s|)
  {
    if s != [] {
      BEBound(s[..|s| - 1]);
    }
  }

  lemma BETwo(n: nat)
    ensures BEBytes(2, n) == [n / 256 % 256, n % 256]
  {
    assert BEBytes(1, n / 256) == BEBytes(0, n / 256 / 256) + [n / 256 % 256];
  }

  lemma BEFour(n: nat)
    ensures BEBytes(4, n) == [n / 0x100_0000 % 256, n / 0x1_0000 % 256, n / 0x100 % 256, n % 256]
  {
    BETwo(n / 0x1_0000);
    assert n / 256 / 256 == n / 0x1_0000 && n / 0x1_0000 / 256 == n / 0x100_0000;
    assert BEBytes(3, n / 256) == BEBytes(2, n / 256 / 256) + [n / 256 % 256];
  }

  lemma BEOfFour(d: seq<byte>)
    requires |d| == 4
    ensures BE(d) == 0x100_0000 * (d[0] as int) + 0x1_0000 * (d[1] as int) + 0x100 * (d[2] as int) + d[3] as int
  {
    assert BE(d[..1]) == d[0] by { assert d[..1][..0] == []; }
    assert d[..2][..1] == d[..1] && d[..3][..2] == d[..2];
    assert BE(d[..2]) == 256 * (d[0] as int) + d[1] as int;
    assert BE(d[..3]) == 256 * BE(d[..2]) + d[2];
  }

  /** `n` zero octets. */
  function Zeros(n: nat): seq<byte> {
    seq(n, _ => 0)
  }

  /** The C conversion `(int)x` of an unsigned value: keep 32 bits, read them as two's complement. */
  function Int32(x: nat): int {
    var low := x % 0x1_0000_0000;
    if low < 0x8000_0000 then low else low - 0x1_0000_0000
  }

  /** memcpy into the middle of a buffer. */
  method Copy(dst: array<byte>, pos: nat, src: seq<byte>)
    requires pos + |src| <= dst.Length
    modifies dst
    ensures dst[..] == old(dst[..])[..pos] + src + old(dst[..])[pos + |src|..]
  {
    var i := 0;
    while i < |src|
      invariant i <= |src|
      invariant forall j :: 0 <= j < dst.Length ==>
                  dst[j] == if pos <= j < pos + i then src[j - pos] else old(dst[..])[j]
    {
      dst[pos + i] := src[i];
      i := i + 1;
    }
  }
}
