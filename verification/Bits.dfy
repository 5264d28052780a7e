/** Bit strings, the big-endian bit reader of src/hwdecode/hw_decode.c and the fixed-length and
    Exp-Golomb codes of section 9.1 of H.264 (section 9.2 of H.265) that it has to invert. */
module Bits {
  import opened Common

  type bit = x: int | 0 <= x <= 1

  // ---------------------------------------------------------------- fixed-length codes

  /** The number a bit string denotes, most significant bit first. */
  function Value(s: seq<bit>): nat {
    if s == [] then 0 else 2 * Value(s[..|s| - 1]) + s[|s| - 1]
  }

  /** u(n): the n-bit form of v. */
  function U(n: nat, v: nat): (r: seq<bit>)
    ensures |r| == n
    decreases n, v
  {
    if n == 0 then [] else U(n - 1, v / 2) + [v % 2]
  }

  lemma {:induction false} ValueOfU(n: nat, v: nat)
    requires v < Pow2(n)
    ensures Value(U(n, v)) == v
  {
    if n > 0 {
      ValueOfU(n - 1, v / 2);
      assert U(n, v)[..n - 1] == U(n - 1, v / 2);
    }
  }

  lemma {:induction false} UOfValue(s: seq<bit>)
    ensures U(|s|, Value(s)) == s
  {
    if s != [] {
      UOfValue(s[..|s| - 1]);
    }
  }

  lemma {:induction false} ValueBound(s: seq<bit>)
    ensures Value(s) < Pow2(|s|)
  {
    if s != [] {
      ValueBound(s[..|s| - 1]);
    }
  }

  // ---------------------------------------------------------------- octets as bits

  /** `v >> n`. */
  function Shr(v: nat, n: nat): nat {
    if n == 0 then v else Shr(v / 2, n - 1)
  }

  lemma {:induction false} BitOfU(n: nat, v: nat, k: nat)
    requires k < n
    ensures U(n, v)[k] == Shr(v, n - 1 - k) % 2
  {
    if k < n - 1 {
      BitOfU(n - 1, v / 2, k);
    }
  }

  /** The bits of a byte string, the most significant bit of each octet first. */
  function BitsOf(data: seq<byte>): (r: seq<bit>)
    ensures |r| == 8 * |data|
  {
    if data == [] then [] else U(8, data[0]) + BitsOf(data[1..])
  }

  lemma OctetBound(s: seq<bit>)
    requires |s| == 8
    ensures Value(s) < 256
  {
    ValueBound(s);
    assert Pow2(8) == 256;
  }

  /** Octets carrying a bit string whose length is a multiple of eight. */
  function Pack(s: seq<bit>): (r: seq<byte>)
    requires |s| % 8 == 0
    ensures |r| == |s| / 8
  {
    if s == [] then [] else
      OctetBound(s[..8]);
      [Value(s[..8])] + Pack(s[8..])
  }

  lemma {:induction false} BitsOfPack(s: seq<bit>)
    requires |s| % 8 == 0
    ensures BitsOf(Pack(s)) == s
  {
    if s != [] {
      BitsOfPack(s[8..]);
      OctetBound(s[..8]);
      UOfValue(s[..8]);
      assert Pack(s) == [Value(s[..8])] + Pack(s[8..]);
      assert s == s[..8] + s[8..];
    }
  }

  lemma {:induction false} BitsOfAppend(a: seq<byte>, b: seq<byte>)
    ensures BitsOf(a + b) == BitsOf(a) + BitsOf(b)
  {
    if a == [] {
      assert a + b == b;
    } else {
      BitsOfAppend(a[1..], b);
      assert (a + b)[1..] == a[1..] + b;
    }
  }

  /** The expression `(byte >> (7 - (pos & 7))) & 1` of the reader is bit pos of the string. */
  lemma {:induction false} BitsOfIndex(data: seq<byte>, pos: nat)
    requires pos < 8 * |data|
    ensures BitsOf(data)[pos] == Shr(data[pos / 8], 7 - pos % 8) % 2
  {
    if pos >= 8 {
      BitsOfIndex(data[1..], pos - 8);
      assert (pos - 8) / 8 == pos / 8 - 1 && (pos - 8) % 8 == pos % 8;
    } else {
      BitOfU(8, data[0], pos);
    }
  }

  // ---------------------------------------------------------------- Exp-Golomb codes

  function Log2(n: nat): (k: nat)
    requires n >= 1
    ensures Pow2(k) <= n < Pow2(k + 1)
  {
    if n == 1 then 0 else Log2(n / 2) + 1
  }

  function ZeroBits(n: nat): (r: seq<bit>)
    ensures |r| == n
  {
    seq(n, _ => 0)
  }

  /** ue(v): k zero bits, a one bit, then the low k bits of v + 1, where k is the number of
      bits of v + 1 after its leading one. */
  function Ue(v: nat): seq<bit> {
    var k := Log2(v + 1);
    ZeroBits(k) + [1] + U(k, v + 1 - Pow2(k))
  }

  // ---------------------------------------------------------------- the reader

  /** What reading n bits at pos yields: their value and the position after them, or 0 and the
      end of the data when they run out. */
  function ReadBits(b: seq<bit>, pos: nat, n: nat): (r: (nat, nat))
    requires pos <= |b|
    ensures r.1 <= |b|
  {
    if pos + n <= |b| then (Value(b[pos..pos + n]), pos + n) else (0, |b|)
  }

  /** ue(v) reading after `zeros` zero bits have been seen; it gives up beyond 31 of them. */
  function ReadUeFrom(b: seq<bit>, pos: nat, zeros: nat): (r: (nat, nat))
    requires pos <= |b| && zeros <= 31
    ensures r.1 <= |b|
    decreases 32 - zeros, pos
  {
    var (v, p) := ReadBits(b, pos, 1);
    if v == 0 then
      if zeros + 1 > 31 then (0, p) else ReadUeFrom(b, p, zeros + 1)
    else if zeros == 0 then (0, p)
    else
      var (low, q) := ReadBits(b, p, zeros);
      (Pow2(zeros) - 1 + low, q)
  }

  function ReadUe(b: seq<bit>, pos: nat): (r: (nat, nat))
    requires pos <= |b|
    ensures r.1 <= |b|
  {
    ReadUeFrom(b, pos, 0)
  }

  /** Bit string x stands at position pos of b. */
  predicate At(b: seq<bit>, pos: nat, x: seq<bit>) {
    pos + |x| <= |b| && b[pos..pos + |x|] == x
  }

  lemma AtSplit(b: seq<bit>, pos: nat, x: seq<bit>, y: seq<bit>)
    requires At(b, pos, x + y)
    ensures At(b, pos, x) && At(b, pos + |x|, y) && pos + |x| + |y| <= |b|
  {
    var w := b[pos..pos + |x| + |y|];
    assert w[..|x|] == x && w[|x|..] == y;
    assert b[pos..pos + |x|] == w[..|x|];
    assert b[pos + |x|..pos + |x| + |y|] == w[|x|..];
  }

  lemma AtHead(b: seq<bit>, pos: nat, x: seq<bit>)
    requires At(b, pos, x) && x != []
    ensures pos < |b| && b[pos] == x[0]
  {
    assert b[pos] == b[pos..pos + |x|][0];
  }

  lemma ReadAt(b: seq<bit>, pos: nat, x: seq<bit>)
    requires At(b, pos, x)
    ensures ReadBits(b, pos, |x|) == (Value(x), pos + |x|)
  {
  }

  lemma ReadOne(b: seq<bit>, pos: nat)
    requires pos < |b|
    ensures ReadBits(b, pos, 1) == (b[pos] as nat, pos + 1)
  {
    var w := b[pos..pos + 1];
    assert w == [b[pos]] && w[..0] == [];
    assert Value(w[..0]) == 0;
  }

  /** The reader inverts u(n). */
  lemma ReadU(b: seq<bit>, pos: nat, n: nat, v: nat)
    requires v < Pow2(n) && At(b, pos, U(n, v))
    ensures ReadBits(b, pos, n) == (v, pos + n)
  {
    ValueOfU(n, v);
    ReadAt(b, pos, U(n, v));
  }

  /** A run of k zeros and a one, then k bits x, reads as 2^k - 1 + x. */
  lemma ReadUeRun(b: seq<bit>, pos: nat, zeros: nat, k: nat)
    requires zeros + k <= 31 && pos + k + 1 + zeros + k <= |b|
    requires forall i :: pos <= i < pos + k ==> b[i] == 0
    requires b[pos + k] == 1
    ensures var n := zeros + k; var start := pos + k + 1;
            ReadUeFrom(b, pos, zeros) == (Pow2(n) - 1 + Value(b[start..start + n]), start + n)
    decreases k
  {
    hide Value, Pow2;
    ReadUeZeros(b, pos, zeros, k);
    ReadOne(b, pos + k);
    if zeros + k == 0 {
      NoLowBits(b, pos + 1);
    }
  }

  lemma NoLowBits(b: seq<bit>, start: nat)
    requires start <= |b|
    ensures Pow2(0) - 1 + Value(b[start..start]) == 0
  {
    assert b[start..start] == [];
  }

  lemma UeRun(b: seq<bit>, pos: nat, k: nat, low: nat)
    requires k <= 31 && low < Pow2(k) && pos + k < |b|
    requires forall i :: pos <= i < pos + k ==> b[i] == 0
    requires b[pos + k] == 1
    requires At(b, pos + k + 1, U(k, low))
    ensures ReadUe(b, pos) == (Pow2(k) - 1 + low, pos + k + 1 + k)
  {
    ReadUeRun(b, pos, 0, k);
    ValueOfU(k, low);
  }

  /** The reader inverts ue(v) for every value it can represent. */
  lemma ReadUeAt(b: seq<bit>, pos: nat, v: nat)
    requires v <= 0xFFFF_FFFE && At(b, pos, Ue(v))
    ensures ReadUe(b, pos) == (v, pos + |Ue(v)|)
  {
    hide Value, ReadUe, ReadUeFrom, U, Log2, At;
    var k := Log2(v + 1);
    Log2Below32(v + 1);
    AtRun(b, pos, k, U(k, v + 1 - Pow2(k)));
    UeRun(b, pos, k, v + 1 - Pow2(k));
  }

  lemma AtRun(b: seq<bit>, pos: nat, k: nat, low: seq<bit>)
    requires At(b, pos, ZeroBits(k) + [1] + low)
    ensures pos + k < |b| && b[pos + k] == 1 && At(b, pos + k + 1, low)
    ensures forall i :: pos <= i < pos + k ==> b[i] == 0
  {
    AtSplit(b, pos, ZeroBits(k) + [1], low);
    AtSplit(b, pos, ZeroBits(k), [1]);
    AtHead(b, pos + k, [1]);
    forall i | pos <= i < pos + k ensures b[i] == 0 {
      assert b[i] == b[pos..pos + k][i - pos];
    }
  }

  lemma {:induction false} Pow2Monotone(a: nat, b: nat)
    requires a <= b
    ensures Pow2(a) <= Pow2(b)
    decreases b - a
  {
    if a < b {
      Pow2Monotone(a, b - 1);
    }
  }

  lemma Log2Below32(n: nat)
    requires 1 <= n < 0x1_0000_0000
    ensures Log2(n) <= 31
  {
    assert Pow2(8) == 256;
    assert Pow2(16) == 65536;
    assert Pow2(24) == 0x100_0000;
    assert Pow2(32) == 0x1_0000_0000;
    if Log2(n) >= 32 {
      Pow2Monotone(32, Log2(n));
    }
  }

  /** A one bit alone is the code of 0. */
  /** Bits that are not there: the value is 0 and the reader stands at the end. */
  lemma ReadPastEnd(b: seq<bit>, pos: nat, n: nat)
    requires pos <= |b| < pos + n
    ensures ReadBits(b, pos, n) == (0, |b|)
  {
  }

  /** A run of 32 zeros, or of zeros to the end of the data, is no code word: the value is 0. */
  lemma {:induction false} ReadUeGivesUp(b: seq<bit>, pos: nat, zeros: nat)
    requires zeros <= 31 && pos <= |b|
    requires forall i :: pos <= i < |b| && i < pos + 32 - zeros ==> b[i] == 0
    ensures ReadUeFrom(b, pos, zeros) == (0, if pos + 32 - zeros <= |b| then pos + 32 - zeros else |b|)
    decreases 32 - zeros
  {
    hide Value;
    var next := if pos < |b| then pos + 1 else |b|;
    if pos < |b| {
      ReadOne(b, pos);
    } else {
      ReadPastEnd(b, pos, 1);
    }
    if zeros < 31 {
      ReadUeGivesUp(b, next, zeros + 1);
    }
  }

  /** A code word cut off behind its leading one: the missing low bits count as 0. */
  lemma ReadUeCut(b: seq<bit>, pos: nat, k: nat)
    requires 0 < k <= 31 && pos + k < |b| < pos + k + 1 + k
    requires (forall i :: pos <= i < pos + k ==> b[i] == 0) && b[pos + k] == 1
    ensures ReadUe(b, pos) == (Pow2(k) - 1, |b|)
  {
    hide Value;
    ReadUeZeros(b, pos, 0, k);
    ReadOne(b, pos + k);
    ReadPastEnd(b, pos + k + 1, k);
  }

  lemma {:induction false} ReadUeZeros(b: seq<bit>, pos: nat, zeros: nat, k: nat)
    requires zeros + k <= 31 && pos + k <= |b| && forall i :: pos <= i < pos + k ==> b[i] == 0
    ensures ReadUeFrom(b, pos, zeros) == ReadUeFrom(b, pos + k, zeros + k)
    decreases k
  {
    hide Value;
    if k > 0 {
      ReadOne(b, pos);
      ReadUeZeros(b, pos + 1, zeros + 1, k - 1);
    }
  }

  lemma ReadUeOne(b: seq<bit>, pos: nat)
    requires pos < |b| && b[pos] == 1
    ensures ReadUe(b, pos) == (0, pos + 1)
  {
    ReadOne(b, pos);
  }

  /** zc_bitreader: a view of the payload and a bit position that every read advances. */
  class BitReader {
    const data: seq<byte>
    var pos: nat

    ghost predicate Valid() reads this { pos <= 8 * |data| }

    constructor (data: seq<byte>)
      ensures this.data == data && pos == 0 && Valid()
    {
      this.data := data;
      pos := 0;
    }

    method Read(n: nat) returns (v: nat)
      requires Valid()
      modifies this
      ensures Valid()
      ensures (v, pos) == ReadBits(BitsOf(data), old(pos), n)
    {
      ghost var b := BitsOf(data);
      v := 0;
      var i := 0;
      while i < n
        invariant 0 <= i <= n && Valid()
        invariant pos == old(pos) + i
        invariant v == Value(b[old(pos)..pos])
      {
        if pos / 8 >= |data| {
          return 0;
        }
        BitsOfIndex(data, pos);
        assert b[old(pos)..pos + 1][..i] == b[old(pos)..pos];
        v := 2 * v + Shr(data[pos / 8], 7 - pos % 8) % 2;
        pos := pos + 1;
        i := i + 1;
      }
    }

    method ReadExpGolomb() returns (v: nat)
      requires Valid()
      modifies this
      ensures Valid()
      ensures (v, pos) == ReadUe(BitsOf(data), old(pos))
    {
      ghost var b := BitsOf(data);
      var zeros := 0;
      ghost var start: nat := pos;
      var first := Read(1);
      while first == 0
        invariant Valid() && zeros <= 31 && start <= |b|
        invariant (first, pos) == ReadBits(b, start, 1)
        invariant ReadUeFrom(b, old(pos), 0) == ReadUeFrom(b, start, zeros)
        decreases 32 - zeros
      {
        zeros := zeros + 1;
        if zeros > 31 {
          return 0;
        }
        start := pos;
        first := Read(1);
      }
      if zeros == 0 {
        return 0;
      }
      var low := Read(zeros);
      v := Pow2(zeros) - 1 + low;
    }
  }
}
