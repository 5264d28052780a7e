/** NAL units: emulation prevention, Annex B streams, length-prefixed buffers and the search for
    a sequence parameter set in them (src/hwdecode/hw_decode.c). */
module Nal {
  import opened Common
  import opened Bits
  import opened Sps

  // ---------------------------------------------------------------- emulation prevention

  /** Section 7.4.1.1 of H.264 after `z` zero octets: an octet 3 goes before any octet up to 3
      that follows two zeros, and after a final zero octet. */
  function EscapeFrom(p: seq<byte>, z: nat): seq<byte>
    requires z <= 2
    decreases |p|, z
  {
    if p == [] then (if z > 0 then [3] else [])
    else if z == 2 && p[0] <= 3 then [3] + EscapeFrom(p, 0)
    else if p[0] == 0 then [0] + EscapeFrom(p[1..], z + 1)
    else [p[0]] + EscapeFrom(p[1..], 0)
  }

  function Escape(p: seq<byte>): seq<byte> {
    EscapeFrom(p, 0)
  }

  /** What zc_nal_to_rbsp writes. */
  function Unescape(s: seq<byte>): (r: seq<byte>)
    ensures |r| <= |s|
    ensures s != [] ==> r != []
  {
    if s == [] then []
    else if |s| > 2 && s[0] == 0 && s[1] == 0 && s[2] == 3 then [0, 0] + Unescape(s[3..])
    else [s[0]] + Unescape(s[1..])
  }

  lemma UnescapeKeep(done: seq<byte>, s: seq<byte>)
    requires s != [] && !(|s| > 2 && s[0] == 0 && s[1] == 0 && s[2] == 3)
    ensures done + Unescape(s) == (done + [s[0]]) + Unescape(s[1..])
  {
  }

  lemma UnescapeDrop(done: seq<byte>, s: seq<byte>)
    requires |s| > 2 && s[0] == 0 && s[1] == 0 && s[2] == 3
    ensures done + Unescape(s) == (done + [0, 0]) + Unescape(s[3..])
  {
  }

  method NalToRbsp(nal: seq<byte>, out: array<byte>) returns (n: nat)
    requires |nal| <= out.Length
    modifies out
    ensures n <= |nal| && out[..n] == Unescape(nal)
  {
    hide Unescape;
    n := 0;
    var i := 0;
    assert nal[0..] == nal && out[..0] == [];
    assert out[..n] + Unescape(nal[i..]) == Unescape(nal);
    while i < |nal|
      invariant i <= |nal| && n <= i
      invariant out[..n] + Unescape(nal[i..]) == Unescape(nal)
    {
      ghost var done := out[..n];
      if i + 2 < |nal| && nal[i] == 0 && nal[i + 1] == 0 && nal[i + 2] == 3 {
        UnescapeDrop(done, nal[i..]);
        assert nal[i..][3..] == nal[i + 3..];
        out[n] := 0;
        out[n + 1] := 0;
        assert out[..n + 2] == done + [0, 0];
        n := n + 2;
        i := i + 3;
      } else {
        UnescapeKeep(done, nal[i..]);
        assert nal[i..][1..] == nal[i + 1..];
        out[n] := nal[i];
        assert out[..n + 1] == done + [nal[i]];
        n := n + 1;
        i := i + 1;
      }
    }
    UnescapeNothing();
    assert nal[i..] == [] && out[..n] + [] == out[..n];
  }

  lemma UnescapeNothing()
    ensures Unescape([]) == []
  {
  }

  /** The zero octets already written. */
  function Lead(z: nat): seq<byte>
    requires z <= 2
  {
    if z == 0 then [] else if z == 1 then [0] else [0, 0]
  }

  lemma UnescapeHead(x: byte, t: seq<byte>)
    requires !(|t| > 1 && x == 0 && t[0] == 0 && t[1] == 3)
    ensures Unescape([x] + t) == [x] + Unescape(t)
  {
    assert ([x] + t)[1..] == t;
  }

  lemma UnescapeNonZero(z: nat, x: byte, t: seq<byte>)
    requires z <= 2 && x != 0 && (z == 2 ==> x != 3)
    ensures Unescape(Lead(z) + ([x] + t)) == Lead(z) + ([x] + Unescape(t))
  {
    UnescapeHead(x, t);
    hide Unescape;
    var s, u := [x] + t, [x] + Unescape(t);
    if z == 0 {
      assert Lead(z) + s == s && Lead(z) + u == u;
    } else {
      UnescapeHead(0, s);
      if z == 2 {
        UnescapeHead(0, [0] + s);
        assert [0] + ([0] + s) == Lead(2) + s && [0] + ([0] + u) == Lead(2) + u;
      }
    }
  }

  /** After z zeros, the rest of the escaped payload and then t unescape to the payload and x. */
  ghost predicate Restores(p: seq<byte>, z: nat, t: seq<byte>, x: seq<byte>)
    requires z <= 2
  {
    Unescape(Lead(z) + (EscapeFrom(p, z) + t)) == Lead(z) + (p + x)
  }

  /** The zeros in front of the end of the payload, as the escaping counts them. */
  function ZerosAtEnd(p: seq<byte>, z: nat): (r: nat)
    requires z <= 2
    ensures r <= 2
  {
    if p == [] then z
    else if p[0] != 0 then ZerosAtEnd(p[1..], 0)
    else ZerosAtEnd(p[1..], if z == 2 then 1 else z + 1)
  }

  /** What follows the payload after unescaping: the final 3 of a lone zero is not removed. */
  function Leftover(p: seq<byte>, z: nat, t: seq<byte>): seq<byte>
    requires z <= 2
  {
    if ZerosAtEnd(p, z) == 1 then [3] else Unescape(t)
  }

  lemma RestoresAtEnd(z: nat, t: seq<byte>)
    requires z <= 2 && (t != [] ==> z == 0)
    ensures Restores([], z, t, if z == 1 then [3] else Unescape(t))
  {
    UnescapeEnd();
    assert Lead(z) + (EscapeFrom([], z) + t)
        == if z == 2 then [0, 0, 3] else if z == 1 then [0, 3] else t;
    assert Lead(z) + ([] + Unescape(t)) == if z == 0 then Unescape(t) else Lead(z);
  }

  lemma RestoresInserted(p: seq<byte>, t: seq<byte>, x: seq<byte>)
    requires p != [] && p[0] <= 3 && Restores(p, 0, t, x)
    ensures Restores(p, 2, t, x)
  {
    hide Unescape;
    var s := Lead(2) + (EscapeFrom(p, 2) + t);
    assert s[3..] == Lead(0) + (EscapeFrom(p, 0) + t);
    UnescapeDrop([], s);
    assert [] + Unescape(s) == Unescape(s);
    assert [] + [0, 0] == Lead(2);
    assert [0, 0] + (Lead(0) + (p + x)) == Lead(2) + (p + x);
  }

  lemma Regroup(a: seq<byte>, x: seq<byte>, b: seq<byte>, c: seq<byte>)
    ensures a + ((x + b) + c) == (a + x) + (b + c)
  {
  }

  lemma RestoresZero(p: seq<byte>, z: nat, t: seq<byte>, x: seq<byte>)
    requires z < 2 && p != [] && p[0] == 0 && Restores(p[1..], z + 1, t, x)
    ensures Restores(p, z, t, x)
  {
    hide Unescape;
    var e := EscapeFrom(p[1..], z + 1);
    assert Lead(z + 1) == Lead(z) + [0] && p == [0] + p[1..];
    Regroup(Lead(z), [0], e, t);
    Regroup(Lead(z), [0], p[1..], x);
  }

  lemma RestoresOther(p: seq<byte>, z: nat, t: seq<byte>, u: seq<byte>)
    requires z <= 2 && p != [] && p[0] != 0 && (z == 2 ==> p[0] > 3) && Restores(p[1..], 0, t, u)
    ensures Restores(p, z, t, u)
  {
    hide Unescape;
    var e := EscapeFrom(p[1..], 0);
    UnescapeNonZero(z, p[0], e + t);
    assert EscapeFrom(p, z) == [p[0]] + e;
    hide EscapeFrom;
    assert Lead(0) + (e + t) == e + t && Lead(0) + (p[1..] + u) == p[1..] + u;
    assert ([p[0]] + e) + t == [p[0]] + (e + t);
    assert ([p[0]] + p[1..]) + u == [p[0]] + (p[1..] + u);
    assert p == [p[0]] + p[1..];
  }

  /** Unescaping leaves the payload in front of what follows it, when nothing follows or the
      payload ends in a non-zero octet. */
  lemma {:induction false} UnescapeEscapeFrom(p: seq<byte>, z: nat, t: seq<byte>)
    requires z <= 2
    requires t != [] ==> if p == [] then z == 0 else p[|p| - 1] != 0
    ensures Restores(p, z, t, Leftover(p, z, t))
    decreases |p|, z
  {
    hide Restores;
    if p == [] {
      RestoresAtEnd(z, t);
    } else if z == 2 && p[0] <= 3 {
      UnescapeEscapeFrom(p, 0, t);
      RestoresInserted(p, t, Leftover(p, 0, t));
    } else if p[0] == 0 {
      UnescapeEscapeFrom(p[1..], z + 1, t);
      RestoresZero(p, z, t, Leftover(p, z, t));
    } else {
      UnescapeEscapeFrom(p[1..], 0, t);
      RestoresOther(p, z, t, Leftover(p, z, t));
    }
  }

  lemma UnescapeEnd()
    ensures Unescape([]) == [] && Unescape([0, 3]) == [0, 3] && Unescape([0, 0, 3]) == [0, 0]
  {
    assert [0, 3][1..] == [3] && [3][1..] == [] && [0, 0, 3][3..] == [];
  }

  /** How many zero octets end the payload. */
  function TrailingZeros(p: seq<byte>): nat {
    if p == [] || p[|p| - 1] != 0 then 0 else 1 + TrailingZeros(p[..|p| - 1])
  }

  lemma {:induction false} ZerosAtEndLast(p: seq<byte>, x: byte, z: nat)
    requires z <= 2
    ensures var n := ZerosAtEnd(p, z);
            ZerosAtEnd(p + [x], z) == if x != 0 then 0 else if n == 2 then 1 else n + 1
  {
    if p == [] {
      assert [x][1..] == [] && [] + [x] == [x];
    } else {
      assert (p + [x])[0] == p[0] && (p + [x])[1..] == p[1..] + [x];
      ZerosAtEndLast(p[1..], x, if p[0] != 0 then 0 else if z == 2 then 1 else z + 1);
    }
  }

  lemma {:induction false} ZerosAtEndIs(p: seq<byte>)
    ensures var n := TrailingZeros(p); ZerosAtEnd(p, 0) == if n == 0 then 0 else 2 - n % 2
  {
    if p != [] {
      var front := p[..|p| - 1];
      ZerosAtEndIs(front);
      ZerosAtEndLast(front, p[|p| - 1], 0);
      assert front + [p[|p| - 1]] == p;
    }
  }

  /** zc_nal_to_rbsp undoes the standard's escaping if and only if the payload ends in an even number
      of zero octets: the octet 3 behind a lone last zero stays. A payload of the standard, which ends
      in a non-zero octet or in whole words of zeros, meets this. */
  lemma UnescapeEscapeExact(p: seq<byte>)
    ensures Unescape(Escape(p)) == (if TrailingZeros(p) % 2 == 0 then p else p + [3])
    ensures Unescape(Escape(p)) == p <==> TrailingZeros(p) % 2 == 0
  {
    UnescapeEscapeFrom(p, 0, []);
    ZerosAtEndIs(p);
    assert Lead(0) + (Escape(p) + []) == Escape(p);
    assert Lead(0) + (p + Leftover(p, 0, [])) == p + Leftover(p, 0, []);
    assert p + Unescape([]) == p;
  }

  /** ... and leaves the payload in front when the measured unit runs on into the next start code. */
  lemma UnescapeEscapeThen(p: seq<byte>, t: seq<byte>)
    requires p != [] && p[|p| - 1] != 0
    ensures Unescape(Escape(p) + t) == p + Unescape(t)
  {
    UnescapeEscapeFrom(p, 0, t);
    ZerosAtEndIs(p);
    assert Lead(0) + (Escape(p) + t) == Escape(p) + t;
    assert Lead(0) + (p + Unescape(t)) == p + Unescape(t);
  }

  lemma UnescapeWhole(p: seq<byte>)
    requires p != [] && p[|p| - 1] != 0
    ensures Unescape(Escape(p)) == p
  {
    hide Escape;
    UnescapeEscapeExact(p);
  }

  // ---------------------------------------------------------------- start codes

  predicate StartCodeAt(d: seq<byte>, i: nat) {
    i + 3 <= |d| && d[i] == 0 && d[i + 1] == 0 && d[i + 2] == 1
  }

  /** Octets that no start code begins in when more octets follow: no start code inside, and a
      last octet that is not zero. */
  ghost predicate Clean(nal: seq<byte>) {
    && (nal != [] ==> nal[|nal| - 1] != 0)
    && (forall i: nat :: !StartCodeAt(nal, i))
  }

  /** After z zeros, no two zeros are followed by an octet below 3. */
  ghost predicate Guarded(s: seq<byte>, z: nat)
    requires z <= 2
  {
    if s == [] then true
    else if z == 2 then s[0] >= 3 && Guarded(s[1..], 0)
    else Guarded(s[1..], if s[0] == 0 then z + 1 else 0)
  }

  lemma {:induction false} EscapeIsGuarded(p: seq<byte>, z: nat)
    requires z <= 2
    ensures Guarded(EscapeFrom(p, z), z)
    decreases |p|, z
  {
    if p == [] {
      assert z > 0 ==> [3][1..] == [];
    } else {
      var inserted := z == 2 && p[0] <= 3;
      EscapeIsGuarded(if inserted then p else p[1..], if !inserted && p[0] == 0 then z + 1 else 0);
      assert EscapeFrom(p, z)[1..] == EscapeFrom(if inserted then p else p[1..],
                                                 if !inserted && p[0] == 0 then z + 1 else 0);
    }
  }

  lemma {:induction false} GuardedHasNoStartCode(s: seq<byte>, z: nat, i: nat)
    requires z <= 2 && Guarded(s, z) && i + 2 < |s| && s[i] == 0 && s[i + 1] == 0
    ensures s[i + 2] >= 3
  {
    if i > 0 {
      GuardedHasNoStartCode(s[1..], if z < 2 && s[0] == 0 then z + 1 else 0, i - 1);
    } else if z == 0 {
      assert Guarded(s[1..], 1) && Guarded(s[1..][1..], 2);
    }
  }

  lemma {:induction false} EscapeFromLast(p: seq<byte>, z: nat)
    requires z <= 2 && p != [] && p[|p| - 1] != 0
    ensures var s := EscapeFrom(p, z); s != [] && s[|s| - 1] == p[|p| - 1]
    decreases |p|, z
  {
    if z == 2 && p[0] <= 3 {
      EscapeFromLast(p, 0);
    } else if |p| > 1 {
      EscapeFromLast(p[1..], if p[0] == 0 then z + 1 else 0);
    }
  }

  /** A header ending in a non-zero octet in front of an escaped payload holds no start code, so
      the scanner never splits such a unit. */
  lemma EscapedUnitIsClean(header: seq<byte>, p: seq<byte>)
    requires Clean(header) && header != [] && p != [] && p[|p| - 1] != 0
    ensures Clean(header + Escape(p))
  {
    var nal := header + Escape(p);
    EscapeFromLast(p, 0);
    forall i: nat ensures !StartCodeAt(nal, i) {
      if StartCodeAt(nal, i) {
        if i + 3 <= |header| {
          assert StartCodeAt(header, i);
        } else if i >= |header| {
          EscapeIsGuarded(p, 0);
          GuardedHasNoStartCode(Escape(p), 0, i - |header|);
        }
      }
    }
  }

  /** The offset just after the first start code at or after i. */
  function NextStart(d: seq<byte>, i: nat): (r: Option<nat>)
    ensures r.Some? ==> i + 3 <= r.value <= |d|
    decreases |d| - i
  {
    if i + 3 > |d| then None
    else if StartCodeAt(d, i) then Some(i + 3)
    else NextStart(d, i + 1)
  }

  /** zc_nal_find_start, which tries a three-octet and a four-octet start code at each offset. */
  method NalFindStart(d: seq<byte>, offset: nat) returns (r: Option<nat>)
    ensures r == NextStart(d, offset)
  {
    var i := offset;
    while i + 3 <= |d|
      invariant offset <= i
      invariant NextStart(d, offset) == NextStart(d, i)
      decreases |d| - i
    {
      if d[i] == 0 && d[i + 1] == 0 && d[i + 2] == 1 {
        return Some(i + 3);
      }
      if i + 4 <= |d| && d[i] == 0 && d[i + 1] == 0 && d[i + 2] == 0 && d[i + 3] == 1 {
        assert StartCodeAt(d, i + 1);
        return Some(i + 4);
      }
      i := i + 1;
    }
    return None;
  }

  /** It is the first one: a start code ends there, and none stands before it. */
  lemma {:induction false} NextStartIsFirst(d: seq<byte>, i: nat)
    ensures match NextStart(d, i)
            case None => forall j :: j >= i ==> !StartCodeAt(d, j)
            case Some(o) => StartCodeAt(d, o - 3) && forall j :: i <= j < o - 3 ==> !StartCodeAt(d, j)
    decreases |d| - i
  {
    if i + 3 <= |d| && !StartCodeAt(d, i) {
      NextStartIsFirst(d, i + 1);
    }
  }

  lemma NextStartIs(d: seq<byte>, i: nat, o: nat)
    requires i + 3 <= o && StartCodeAt(d, o - 3)
    requires forall j :: i <= j < o - 3 ==> !StartCodeAt(d, j)
    ensures NextStart(d, i) == Some(o)
  {
    NextStartIsFirst(d, i);
  }

  lemma Cut(d: seq<byte>, start: nat, x: seq<byte>, y: seq<byte>)
    requires start <= |d| && d[start..] == x + y
    ensures start + |x| <= |d| && d[start..start + |x|] == x && d[start + |x|..] == y
  {
    assert d[start..start + |x|] == (x + y)[..|x|];
    assert d[start + |x|..] == (x + y)[|x|..];
  }

  // ---------------------------------------------------------------- what follows a unit

  /** After a unit: zero octets to the end, or zero octets, a one and anything. */
  datatype Rest = End(zeros: nat) | More(zeros: nat, bytes: seq<byte>) {
    ghost predicate Valid() { More? ==> zeros >= 2 }

    /** The part of it the scanner counts into the unit. */
    function Counted(): seq<byte> {
      if End? then Zeros(zeros) else Zeros(zeros) + [1]
    }

    function Bytes(): seq<byte> {
      if End? then Zeros(zeros) else Zeros(zeros) + [1] + bytes
    }
  }

  /** From the first octet p of a unit that ends at k, the scanner finds the start code after it. */
  lemma NextAfterUnit(d: seq<byte>, p: nat, k: nat, r: Rest)
    requires p <= k <= |d| && Clean(d[p..k]) && r.Valid() && d[k..] == r.Bytes()
    ensures NextStart(d, p) == if r.End? then None else Some(k + |r.Counted()|)
  {
    assert p < k ==> d[k - 1] == d[p..k][k - p - 1];
    forall i | k <= i < k + r.zeros ensures d[i] == 0 {
      assert d[i] == d[k..][i - k];
    }
    forall j: nat | p <= j && (r.More? ==> j < k + r.zeros - 2) ensures !StartCodeAt(d, j) {
      if StartCodeAt(d, j) && j + 3 <= k {
        assert StartCodeAt(d[p..k], j - p);
      }
    }
    if r.More? {
      assert d[k + r.zeros] == d[k..][r.zeros] == 1;
      NextStartIs(d, p, k + r.zeros + 1);
    } else {
      NextStartIsFirst(d, p);
    }
  }

  // ---------------------------------------------------------------- the search

  datatype Codec = H264 | Hevc {
    function HeaderLength(): nat { if Hevc? then 2 else 1 }
    function SpsType(): nat { if Hevc? then 33 else 7 }
    /** nal_unit_type from the first octet of the unit. */
    function TypeOf(first: byte): nat { if Hevc? then first / 2 % 64 else first % 32 }
  }

  const RBSP_SIZE: nat := 2048

  function Depth(c: Codec, rbsp: seq<byte>): int {
    if c.Hevc? then HevcDepth(BitsOf(rbsp)) else H264Depth(BitsOf(rbsp))
  }

  /** ZC_TRY_SPS: the depth, unless the unit has no payload or one larger than the scratch buffer. */
  function TrySps(c: Codec, nal: seq<byte>): Option<int> {
    if |nal| <= c.HeaderLength() || |nal| - c.HeaderLength() > RBSP_SIZE then None
    else Some(Depth(c, Unescape(nal[c.HeaderLength()..])))
  }

  method TrySpsUnit(c: Codec, nal: seq<byte>, rbsp: array<byte>) returns (r: Option<int>)
    requires rbsp.Length == RBSP_SIZE
    modifies rbsp
    ensures r == TrySps(c, nal)
  {
    if |nal| <= c.HeaderLength() {
      return None;
    }
    var payload := nal[c.HeaderLength()..];
    if |payload| > rbsp.Length {
      return None;
    }
    var n := NalToRbsp(payload, rbsp);
    if n == 0 {
      return None;
    }
    var view := rbsp[..n];
    var depth;
    if c.Hevc? {
      depth := SpsHevcBitDepth(view);
    } else {
      depth := SpsH264BitDepth(view);
    }
    return Some(depth);
  }

  /** What the Annex B loop makes of the unit measured as `nal`. */
  function ExamineAnnexB(c: Codec, nal: seq<byte>): Option<int> {
    if |nal| >= c.HeaderLength() && c.TypeOf(nal[0]) == c.SpsType() then TrySps(c, nal) else None
  }

  /** The Annex B loop from a unit that begins at start. */
  function AnnexBFrom(c: Codec, d: seq<byte>, start: nat): Option<int>
    requires start <= |d|
    decreases |d| - start
  {
    var next := NextStart(d, start);
    var end := if next.None? then |d| else next.value;
    var hit := ExamineAnnexB(c, d[start..end]);
    if hit.Some? || next.None? then hit
    else
      var again := NextStart(d, next.value);
      if again.None? then None else AnnexBFrom(c, d, again.value)
  }

  function AnnexB(c: Codec, d: seq<byte>): Option<int> {
    match NextStart(d, 0)
    case None => None
    case Some(start) => AnnexBFrom(c, d, start)
  }

  function ExaminePrefixed(c: Codec, nal: seq<byte>): Option<int>
    requires nal != []
  {
    var kind := if c.Hevc? && |nal| >= 2 then nal[0] / 2 % 64 else nal[0] % 32;
    if kind == c.SpsType() then TrySps(c, nal) else None
  }

  /** The length-prefixed loop from offset off. */
  function Prefixed(c: Codec, d: seq<byte>, off: nat): int
    requires off <= |d|
    decreases |d| - off
  {
    if off + 4 > |d| then 0
    else
      var len := BE(d[off..off + 4]);
      if len == 0 || len > |d| - (off + 4) then 0
      else
        var hit := ExaminePrefixed(c, d[off + 4..off + 4 + len]);
        if hit.Some? then hit.value else Prefixed(c, d, off + 4 + len)
  }

  /** zc_nal_bit_depth. */
  function BitDepth(c: Codec, d: seq<byte>): int {
    if |d| < 4 then 0
    else match AnnexB(c, d)
         case Some(depth) => depth
         case None => Prefixed(c, d, 0)
  }

  method AnnexBLoop(c: Codec, d: seq<byte>, rbsp: array<byte>) returns (r: Option<int>)
    requires rbsp.Length == RBSP_SIZE
    modifies rbsp
    ensures r == AnnexB(c, d)
  {
    var start := NalFindStart(d, 0);
    while start.Some?
      invariant start.Some? ==> start.value <= |d|
      invariant AnnexB(c, d) == if start.Some? then AnnexBFrom(c, d, start.value) else None
      decreases if start.Some? then 1 + |d| - start.value else 0
    {
      var next := NalFindStart(d, start.value);
      var nal := d[start.value..if next.None? then |d| else next.value];
      if |nal| >= c.HeaderLength() && c.TypeOf(nal[0]) == c.SpsType() {
        var hit := TrySpsUnit(c, nal, rbsp);
        if hit.Some? {
          return hit;
        }
      }
      if next.None? {
        return None;
      }
      start := NalFindStart(d, next.value);
    }
    return None;
  }

  method PrefixedLoop(c: Codec, d: seq<byte>, rbsp: array<byte>) returns (depth: int)
    requires rbsp.Length == RBSP_SIZE
    modifies rbsp
    ensures depth == Prefixed(c, d, 0)
  {
    hide BE, TrySps;
    var off := 0;
    while off + 4 <= |d|
      invariant off <= |d|
      invariant Prefixed(c, d, 0) == Prefixed(c, d, off)
      decreases |d| - off
    {
      var len := BE(d[off..off + 4]);
      if len == 0 || len > |d| - (off + 4) {
        return 0;
      }
      var nal := d[off + 4..off + 4 + len];
      var kind := if c.Hevc? && len >= 2 then nal[0] / 2 % 64 else nal[0] % 32;
      if kind == c.SpsType() {
        var hit := TrySpsUnit(c, nal, rbsp);
        if hit.Some? {
          return hit.value;
        }
      }
      off := off + 4 + len;
    }
    return 0;
  }

  method NalBitDepth(c: Codec, d: seq<byte>) returns (depth: int)
    ensures depth == BitDepth(c, d)
  {
    if |d| < 4 {
      return 0;
    }
    var rbsp := new byte[RBSP_SIZE];
    var annexB := AnnexBLoop(c, d, rbsp);
    if annexB.Some? {
      return annexB.value;
    }
    depth := PrefixedLoop(c, d, rbsp);
  }
}
