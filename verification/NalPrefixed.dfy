/** What the parameter-set search of src/hwdecode/hw_decode.c finds in length-prefixed buffers, and
    when their length fields are taken for start codes. */
module NalPrefixed {
  import opened Common
  import opened Bits
  import opened Sps
  import opened Nal
  import opened NalStream

  // ---------------------------------------------------------------- length-prefixed buffers

  function LengthField(n: nat): (r: seq<byte>)
    requires n < 0x1_0000_0000
    ensures |r| == 4
  {
    BEBytes(4, n)
  }

  /** A unit whose size fits the length field. */
  type unit = u: seq<byte> | 0 < |u| < 0x1_0000_0000 witness [0]

  function PrefixedStream(us: seq<unit>): seq<byte>
  {
    if us == [] then [] else LengthField(|us[0]|) + (us[0] + PrefixedStream(us[1..]))
  }

  /** The depth of the first unit that is a usable parameter set, or 0. */
  function FirstPrefixed(c: Codec, us: seq<unit>): int
  {
    if us == [] then 0
    else var hit := ExaminePrefixed(c, us[0]);
         if hit.Some? then hit.value else FirstPrefixed(c, us[1..])
  }

  lemma LengthInverse(n: nat)
    requires n < 0x1_0000_0000
    ensures BE(LengthField(n)) == n
  {
    assert Pow256(2) == 0x1_0000 && Pow256(4) == 256 * Pow256(3) == 0x1_0000 * Pow256(2);
    BEInverse(4, n);
  }

  lemma {:induction false} PrefixedFrom(c: Codec, d: seq<byte>, off: nat, us: seq<unit>)
    requires off <= |d| && d[off..] == PrefixedStream(us)
    ensures Prefixed(c, d, off) == FirstPrefixed(c, us)
    decreases |us|
  {
    hide ExaminePrefixed;
    if us != [] {
      var n := |us[0]|;
      LengthInverse(n);
      PrefixedLayout(d, off, us[0], PrefixedStream(us[1..]));
      hide BE, LengthField;
      PrefixedFrom(c, d, off + 4 + n, us[1..]);
    }
  }

  lemma PrefixedLayout(d: seq<byte>, off: nat, u: seq<byte>, rest: seq<byte>)
    requires |u| < 0x1_0000_0000 && off <= |d| && d[off..] == LengthField(|u|) + (u + rest)
    ensures off + 4 + |u| <= |d| && d[off..off + 4] == LengthField(|u|)
    ensures d[off + 4..off + 4 + |u|] == u && d[off + 4 + |u|..] == rest
  {
    hide LengthField;
    Cut(d, off, LengthField(|u|), u + rest);
    Cut(d, off + 4, u, rest);
  }

  lemma NoStartCodeNoAnnexB(c: Codec, d: seq<byte>)
    requires forall i: nat :: !StartCodeAt(d, i)
    ensures AnnexB(c, d) == None
  {
    NextStartIsFirst(d, 0);
  }

  lemma WithoutStartCode(c: Codec, us: seq<unit>)
    requires forall i: nat :: !StartCodeAt(PrefixedStream(us), i)
    ensures BitDepth(c, PrefixedStream(us)) == FirstPrefixed(c, us)
  {
    var d := PrefixedStream(us);
    NoStartCodeNoAnnexB(c, d);
    assert d[0..] == d;
    PrefixedFrom(c, d, 0, us);
  }

  // ---------------------------------------------------------------- accidental start codes

  /** A length field that forms a start code, by itself or with the first octets of its unit. */
  predicate Accident(u: seq<byte>) {
    || 256 <= |u| < 512
    || |u| % 0x100_0000 == 1
    || (|u| >= 1 && |u| % 0x1_0000 == 0 && u[0] == 1)
    || (|u| >= 2 && |u| % 0x100 == 0 && u[0] == 0 && u[1] == 1)
  }

  ghost predicate AllClean(us: seq<unit>) {
    forall i :: 0 <= i < |us| ==> Clean(us[i])
  }

  /** The start codes of a buffer that begins with a clean unit: four places in and behind the
      length field, and those of the rest. */
  lemma StartCodesOfUnit(u: seq<byte>, rest: seq<byte>, i: nat)
    requires 0 < |u| < 0x1_0000_0000 && Clean(u)
    ensures StartCodeAt(LengthField(|u|) + (u + rest), i) <==>
            match i
            case 0 => 256 <= |u| < 512
            case 1 => |u| % 0x100_0000 == 1
            case 2 => |u| % 0x1_0000 == 0 && u[0] == 1
            case 3 => |u| >= 2 && |u| % 0x100 == 0 && u[0] == 0 && u[1] == 1
            case _ => i >= 4 + |u| && StartCodeAt(rest, i - 4 - |u|)
  {
    var n, d := |u|, LengthField(|u|) + (u + rest);
    if i < 4 {
      LengthOctets(n);
      hide LengthField;
      assert d[4] == u[0] && (|u| >= 2 ==> d[5] == u[1]);
    } else {
      hide LengthField;
      InsideUnit(u, rest, i - 4);
      BehindLength(LengthField(n), u + rest, i - 4);
    }
  }

  lemma BehindLength(head: seq<byte>, tail: seq<byte>, i: nat)
    requires |head| == 4
    ensures StartCodeAt(head + tail, 4 + i) <==> StartCodeAt(tail, i)
  {
  }

  lemma InsideUnit(u: seq<byte>, rest: seq<byte>, i: nat)
    requires u != [] && Clean(u)
    ensures StartCodeAt(u + rest, i) <==> i >= |u| && StartCodeAt(rest, i - |u|)
  {
    if i + 3 <= |u| {
      assert !StartCodeAt(u, i);
    } else if i < |u| {
      assert (u + rest)[|u| - 1] != 0;
    }
  }

  lemma LengthOctets(n: nat)
    requires n < 0x1_0000_0000
    ensures var h := LengthField(n);
            && (h[0] == 0 && h[1] == 0 && h[2] == 1 <==> 256 <= n < 512)
            && (h[1] == 0 && h[2] == 0 && h[3] == 1 <==> n % 0x100_0000 == 1)
            && (h[2] == 0 && h[3] == 0 <==> n % 0x1_0000 == 0)
            && (h[3] == 0 <==> n % 0x100 == 0)
            && (h[3] == 0 && n > 0 ==> n >= 2) && (256 <= n < 512 ==> h[3] == n - 256)
  {
    BEFour(n);
    var h := LengthField(n);
    hide LengthField;
    Octets(n, n / 0x100_0000, n / 0x1_0000 % 256, n / 0x100 % 256, n % 256);
  }

  lemma Octets(n: nat, a: nat, b: nat, c: nat, e: nat)
    requires n < 0x1_0000_0000
    requires a == n / 0x100_0000 && b == n / 0x1_0000 % 256 && c == n / 0x100 % 256 && e == n % 256
    ensures a % 256 == a && n == 0x100_0000 * a + 0x1_0000 * b + 0x100 * c + e
    ensures n % 0x100_0000 == 0x1_0000 * b + 0x100 * c + e && n % 0x1_0000 == 0x100 * c + e
  {
    assert n / 0x1_0000 == 256 * a + b;
    assert n / 0x100 == 256 * (n / 0x1_0000) + c;
  }

  lemma AccidentMakesStartCode(u: seq<byte>, rest: seq<byte>) returns (i: nat)
    requires 0 < |u| < 0x1_0000_0000 && Clean(u) && Accident(u)
    ensures StartCodeAt(LengthField(|u|) + (u + rest), i)
  {
    hide Clean, StartCodeAt, LengthField;
    i := if 256 <= |u| < 512 then 0
         else if |u| % 0x100_0000 == 1 then 1
         else if |u| % 0x1_0000 == 0 && u[0] == 1 then 2
         else 3;
    StartCodesOfUnit(u, rest, i);
  }

  lemma StartCodeIsAccident(u: seq<byte>, rest: seq<byte>, i: nat)
    requires 0 < |u| < 0x1_0000_0000 && Clean(u) && i < 4 && StartCodeAt(LengthField(|u|) + (u + rest), i)
    ensures Accident(u)
  {
    StartCodesOfUnit(u, rest, i);
    hide Clean, StartCodeAt, LengthField;
  }

  ghost predicate HasStartCode(d: seq<byte>) {
    exists i: nat :: StartCodeAt(d, i)
  }

  predicate HasAccident(us: seq<unit>) {
    exists k :: 0 <= k < |us| && Accident(us[k])
  }

  lemma AccidentFirst(us: seq<unit>)
    requires us != []
    ensures HasAccident(us) <==> Accident(us[0]) || HasAccident(us[1..])
  {
    hide Accident;
    if HasAccident(us[1..]) {
      var k :| 0 <= k < |us[1..]| && Accident(us[1..][k]);
      assert Accident(us[k + 1]);
    }
    if HasAccident(us) && !Accident(us[0]) {
      var k :| 0 <= k < |us| && Accident(us[k]);
      assert Accident(us[1..][k - 1]);
    }
  }

  lemma StartCodeFirst(u: seq<byte>, rest: seq<byte>)
    requires 0 < |u| < 0x1_0000_0000 && Clean(u)
    ensures HasStartCode(LengthField(|u|) + (u + rest)) <==> Accident(u) || HasStartCode(rest)
  {
    hide Clean, StartCodeAt, LengthField, Accident;
    var d := LengthField(|u|) + (u + rest);
    if i: nat :| StartCodeAt(d, i) {
      if i < 4 {
        StartCodeIsAccident(u, rest, i);
      } else {
        StartCodesOfUnit(u, rest, i);
      }
    }
    if Accident(u) {
      var i := AccidentMakesStartCode(u, rest);
    }
    if i: nat :| StartCodeAt(rest, i) {
      StartCodesOfUnit(u, rest, i + 4 + |u|);
    }
  }

  /** A buffer of clean units holds a start code if and only if one of their lengths is such an
      accident: a question about sizes and first octets only. */
  lemma {:induction false} AccidentExact(us: seq<unit>)
    requires AllClean(us)
    ensures HasStartCode(PrefixedStream(us)) <==> HasAccident(us)
  {
    hide HasStartCode, HasAccident, LengthField;
    if us == [] {
      NoUnits();
    } else {
      AccidentExact(us[1..]);
      AccidentFirst(us);
      StartCodeFirst(us[0], PrefixedStream(us[1..]));
    }
  }

  lemma NoUnits()
    ensures !HasStartCode([]) && !HasAccident([])
  {
  }

  /** Without such an accident a length-prefixed buffer of clean units is searched unit by unit,
      every unit in turn. */
  lemma PrefixedStreamDepth(c: Codec, us: seq<unit>)
    requires AllClean(us) && !HasAccident(us)
    ensures BitDepth(c, PrefixedStream(us)) == FirstPrefixed(c, us)
  {
    hide BitDepth, PrefixedStream, FirstPrefixed, HasAccident, StartCodeAt, Clean;
    AccidentExact(us);
    WithoutStartCode(c, us);
  }

  // ---------------------------------------------------------------- every start code of a buffer

  /** The offsets just behind the start codes from offset i on. */
  function Starts(d: seq<byte>, i: nat): seq<nat>
    decreases |d| - i
  {
    match NextStart(d, i)
    case None => []
    case Some(o) => [o] + Starts(d, o)
  }

  /** Offsets in strictly rising order between two bounds. */
  predicate Rising(starts: seq<nat>, low: nat, high: nat) {
    && (forall j :: 0 <= j < |starts| ==> low <= starts[j] <= high)
    && (forall j, k :: 0 <= j < k < |starts| ==> starts[j] < starts[k])
  }

  /** What the Annex B loop measures from the j-th of them: up to the end of the next start code. */
  function Chunk(d: seq<byte>, starts: seq<nat>, j: nat): seq<byte>
    requires Rising(starts, 0, |d|) && j < |starts|
  {
    d[starts[j]..if j + 1 < |starts| then starts[j + 1] else |d|]
  }

  /** The first chunk at j, j + 2, j + 4, ... that passes for a usable parameter set. */
  function EvenHit(c: Codec, d: seq<byte>, starts: seq<nat>, j: nat): Option<int>
    requires Rising(starts, 0, |d|)
    decreases |starts| - j
  {
    if j >= |starts| then None
    else
      var hit := ExamineAnnexB(c, Chunk(d, starts, j));
      if hit.Some? then hit else EvenHit(c, d, starts, j + 2)
  }

  lemma {:induction false} StartsRise(d: seq<byte>, i: nat)
    ensures Rising(Starts(d, i), i + 3, |d|)
    decreases |d| - i
  {
    var next := NextStart(d, i);
    if next.Some? {
      StartsRise(d, next.value);
    }
  }

  lemma {:induction false} AnnexBFromStart(c: Codec, d: seq<byte>, starts: seq<nat>, j: nat)
    requires Rising(starts, 0, |d|) && j < |starts| && starts[j + 1..] == Starts(d, starts[j])
    ensures AnnexBFrom(c, d, starts[j]) == EvenHit(c, d, starts, j)
    decreases |starts| - j
  {
    hide ExamineAnnexB, NextStart;
    var next := NextStart(d, starts[j]);
    if next.Some? {
      assert starts[j + 1..][0] == next.value && starts[j + 1..][1..] == starts[j + 2..];
      var again := NextStart(d, next.value);
      if again.Some? {
        assert starts[j + 2..][0] == again.value && starts[j + 2..][1..] == starts[j + 3..];
        AnnexBFromStart(c, d, starts, j + 2);
      }
    }
  }

  /** For every byte string whatever, the Annex B pass answers with the first usable chunk among
      the first, third, fifth, ... */
  lemma AnnexBOfAnyBytes(c: Codec, d: seq<byte>)
    ensures Rising(Starts(d, 0), 0, |d|) && AnnexB(c, d) == EvenHit(c, d, Starts(d, 0), 0)
  {
    StartsRise(d, 0);
    hide ExamineAnnexB, NextStart, AnnexBFrom;
    var starts := Starts(d, 0);
    if starts != [] {
      assert starts[1..] == Starts(d, starts[0]);
      AnnexBFromStart(c, d, starts, 0);
    }
  }

  /** The list is determined by what it must contain. */
  lemma {:induction false} StartsAre(d: seq<byte>, i: nat, starts: seq<nat>)
    requires Rising(starts, i + 3, |d|)
    requires forall p: nat :: p >= i ==> (StartCodeAt(d, p) <==> p + 3 in starts)
    ensures starts == Starts(d, i)
    decreases |starts|
  {
    NextStartIsFirst(d, i);
    if starts == [] {
      assert NextStart(d, i).None?;
    } else {
      var o, rest := starts[0], starts[1..];
      assert StartCodeAt(d, o - 3) by { assert o - 3 + 3 in starts; }
      forall p: nat | i <= p < o - 3 ensures !StartCodeAt(d, p) {
        assert p + 3 !in starts;
      }
      NextStartIs(d, i, o);
      forall p: nat | p >= o ensures StartCodeAt(d, p) <==> p + 3 in rest {
        assert p + 3 in starts <==> p + 3 in rest;
      }
      forall j | 0 <= j < |rest| ensures o + 3 <= rest[j] {
        assert rest[j] == starts[j + 1] && rest[j] - 3 + 3 in starts;
        assert StartCodeAt(d, rest[j] - 3) && rest[j] > o;
      }
      StartsAre(d, o, rest);
    }
  }

  // ---------------------------------------------------------------- every list of clean units

  /** The offsets behind the start codes that the length of a unit at offset at takes part in. */
  function OwnStarts(u: seq<byte>, at: nat): seq<nat> {
    (if 256 <= |u| < 512 then [at + 3] else [])
    + (if |u| % 0x100_0000 == 1 then [at + 4] else [])
    + (if |u| >= 1 && |u| % 0x1_0000 == 0 && u[0] == 1 then [at + 5] else [])
    + (if |u| >= 2 && |u| % 0x100 == 0 && u[0] == 0 && u[1] == 1 then [at + 6] else [])
  }

  /** Those of a whole list, from the sizes and first octets of its units alone. */
  function ListStarts(us: seq<unit>, at: nat): seq<nat> {
    if us == [] then [] else OwnStarts(us[0], at) + ListStarts(us[1..], at + 4 + |us[0]|)
  }

  lemma OwnStartsRise(u: seq<byte>, at: nat)
    requires 0 < |u|
    ensures Rising(OwnStarts(u, at), at + 3, if |u| == 1 then at + 4 else at + 6)
  {
  }

  lemma OwnStartsHold(u: seq<byte>, at: nat, o: nat)
    requires 0 < |u|
    ensures o in OwnStarts(u, at) <==>
            || (o == at + 3 && 256 <= |u| < 512)
            || (o == at + 4 && |u| % 0x100_0000 == 1)
            || (o == at + 5 && |u| % 0x1_0000 == 0 && u[0] == 1)
            || (o == at + 6 && |u| >= 2 && |u| % 0x100 == 0 && u[0] == 0 && u[1] == 1)
  {
  }

  lemma RisingAppend(a: seq<nat>, b: seq<nat>, low: nat, mid: nat, mid': nat, high: nat)
    requires Rising(a, low, mid) && Rising(b, mid', high) && mid < mid' && low <= mid' && mid <= high
    ensures Rising(a + b, low, high)
  {
  }

  lemma {:induction false} ListStartsRise(us: seq<unit>, at: nat)
    requires AllClean(us)
    ensures Rising(ListStarts(us, at), at + 3, at + |PrefixedStream(us)|)
  {
    hide OwnStarts, LengthField;
    if us != [] {
      var u, rest := us[0], us[1..];
      ListStartsRise(rest, at + 4 + |u|);
      OwnStartsRise(u, at);
      RisingAppend(OwnStarts(u, at), ListStarts(rest, at + 4 + |u|), at + 3, if |u| == 1 then at + 4 else at + 6,
                   at + 4 + |u| + 3, at + |PrefixedStream(us)|);
    }
  }

  lemma {:induction false} ListStartsAreAll(us: seq<unit>, at: nat, p: nat)
    requires AllClean(us)
    ensures StartCodeAt(PrefixedStream(us), p) <==> at + p + 3 in ListStarts(us, at)
  {
    hide OwnStarts, LengthField, StartCodeAt, Clean, Rising;
    if us == [] {
      NoStart(p);
    } else {
      var u, rest, next := us[0], us[1..], at + 4 + |us[0]|;
      StartOfUnit(u, PrefixedStream(rest), at, p);
      ListStartsRise(rest, next);
      if p >= 4 + |u| {
        ListStartsAreAll(rest, next, p - 4 - |u|);
      } else {
        NotBelow(ListStarts(rest, next), next + 3, next + |PrefixedStream(rest)|, at + p + 3);
      }
    }
  }

  lemma StartOfUnit(u: unit, rest: seq<byte>, at: nat, p: nat)
    requires Clean(u)
    ensures StartCodeAt(LengthField(|u|) + (u + rest), p)
            <==> at + p + 3 in OwnStarts(u, at) || (p >= 4 + |u| && StartCodeAt(rest, p - 4 - |u|))
  {
    hide OwnStarts, LengthField, StartCodeAt, Clean;
    StartCodesOfUnit(u, rest, p);
    OwnStartsHold(u, at, at + p + 3);
  }

  lemma NotBelow(starts: seq<nat>, low: nat, high: nat, o: nat)
    requires Rising(starts, low, high) && o < low
    ensures o !in starts
  {
  }

  lemma NoStart(p: nat)
    ensures !StartCodeAt([], p)
  {
  }

  /** The answer to every length-prefixed buffer of clean units: with the offsets at which their
      lengths are taken for start codes, the first usable one of the first, third, ... chunk between
      them, and where there is none, the first usable unit. */
  lemma PrefixedExact(c: Codec, us: seq<unit>)
    requires AllClean(us)
    ensures var d, starts := PrefixedStream(us), ListStarts(us, 0);
            && Rising(starts, 0, |d|) && starts == Starts(d, 0)
            && BitDepth(c, d) == match EvenHit(c, d, starts, 0)
                                 case Some(depth) => depth
                                 case None => FirstPrefixed(c, us)
  {
    hide PrefixedStream, FirstPrefixed, ListStarts, AnnexB, Prefixed, EvenHit, AllClean, Starts, Rising;
    var d := PrefixedStream(us);
    ListStartsAreStarts(us);
    AnnexBOfAnyBytes(c, d);
    assert d[0..] == d;
    PrefixedFrom(c, d, 0, us);
    if |d| < 4 {
      ShortStream(c, us);
      EvenHitNothing(c, d);
    }
  }

  lemma ListStartsAreStarts(us: seq<unit>)
    requires AllClean(us)
    ensures Rising(ListStarts(us, 0), 0, |PrefixedStream(us)|) && ListStarts(us, 0) == Starts(PrefixedStream(us), 0)
  {
    hide PrefixedStream, ListStarts, Starts, StartCodeAt, Clean;
    var d, starts := PrefixedStream(us), ListStarts(us, 0);
    ListStartsRise(us, 0);
    forall p: nat ensures StartCodeAt(d, p) <==> p + 3 in starts {
      ListStartsAreAll(us, 0, p);
    }
    StartsAre(d, 0, starts);
  }

  lemma ShortStream(c: Codec, us: seq<unit>)
    requires |PrefixedStream(us)| < 4
    ensures us == [] && FirstPrefixed(c, us) == 0 && ListStarts(us, 0) == []
  {
  }

  lemma EvenHitNothing(c: Codec, d: seq<byte>)
    ensures EvenHit(c, d, [], 0) == None
  {
  }

  lemma ConsPrefixed(u: unit, us: seq<unit>)
    ensures PrefixedStream([u] + us) == LengthField(|u|) + (u + PrefixedStream(us))
    ensures forall c :: FirstPrefixed(c, [u] + us)
                        == var hit := ExaminePrefixed(c, u); if hit.Some? then hit.value else FirstPrefixed(c, us)
  {
    var all := [u] + us;
    assert all[0] == u && all[1..] == us;
  }

  lemma LengthInFront(u: seq<byte>, rest: seq<byte>)
    requires 256 <= |u| < 512
    ensures var d := LengthField(|u|) + (u + rest);
            |d| >= 260 && d[3] == |u| - 256 && d[4..] == u + rest
  {
    LengthOctets(|u|);
  }

  /** The walk stops with 8 at a first octet that is not in its list of profiles. */
  lemma UnlistedFirstOctet(first: byte, more: seq<byte>)
    requires first != 0 && !ReadsDepth(first)
    ensures Depth(H264, Unescape([first] + more)) == 8
  {
    assert Unescape([first] + more) == [first] + Unescape(([first] + more)[1..]);
    var x := [first] + Unescape(([first] + more)[1..]);
    hide Unescape;
    assert BitsOf(x) == U(8, first) + BitsOf(x[1..]);
    hide ReadUe, U, Value;
    assert Pow2(8) == 256;
    ReadU(BitsOf(x), 0, 8, first);
  }

  /** The unit that carries an H.264 parameter set. */
  function H264Unit(header: byte, s: H264Sps, more: seq<bit>): seq<byte> {
    [header] + Escape(Rbsp(EncodeH264(s) + more))
  }

  lemma H264UnitFacts(header: byte, s: H264Sps, more: seq<bit>)
    requires header % 32 == 7 && s.Valid() && |H264Unit(header, s, more)| <= 1 + RBSP_SIZE
    ensures var u := H264Unit(header, s, more);
            && |u| > 1 && u[0] == header && Clean(u)
            && ExaminePrefixed(H264, u) == Some(if ReadsDepth(s.profileIdc) then 8 + s.bitDepthLumaMinus8 else 8)
  {
    var data := EncodeH264(s) + more;
    RbspLayout(data, []);
    var rbsp := Rbsp(data);
    var b := BitsOf(rbsp);
    assert rbsp + [] == rbsp;
    hide Rbsp, EncodeH264, H264Depth;
    AtSplit(b, 0, EncodeH264(s), more);
    H264DepthOfEncoded(b, s);
    EscapeFromLast(rbsp, 0);
    assert Clean([header]);
    EscapedUnitIsClean([header], rbsp);
    hide Unescape, Escape, Clean;
    UnescapeWhole(rbsp);
    assert ([header] + Escape(rbsp))[1..] == Escape(rbsp);
  }

  lemma ConsClean(u: unit, us: seq<unit>)
    requires 0 < |u| < 0x1_0000_0000 && Clean(u) && AllClean(us)
    ensures AllClean([u] + us)
  {
  }

  // ---------------------------------------------------------------- one accident anywhere

  lemma {:induction false} PrefixedAppend(a: seq<unit>, b: seq<unit>)
    ensures PrefixedStream(a + b) == PrefixedStream(a) + PrefixedStream(b)
  {
    hide LengthField;
    if a == [] {
      assert a + b == b;
    } else {
      assert (a + b)[0] == a[0] && (a + b)[1..] == a[1..] + b;
      PrefixedAppend(a[1..], b);
      Nest(LengthField(|a[0]|), a[0], PrefixedStream(a[1..]), PrefixedStream(b));
    }
  }

  lemma Nest(a: seq<byte>, b: seq<byte>, c: seq<byte>, d: seq<byte>)
    ensures a + (b + (c + d)) == a + (b + c) + d
  {
  }

  lemma {:induction false} ListStartsAppend(a: seq<unit>, b: seq<unit>, at: nat)
    ensures ListStarts(a + b, at) == ListStarts(a, at) + ListStarts(b, at + |PrefixedStream(a)|)
  {
    hide OwnStarts, LengthField;
    if a == [] {
      assert a + b == b;
    } else {
      assert (a + b)[0] == a[0] && (a + b)[1..] == a[1..] + b;
      ListStartsAppend(a[1..], b, at + 4 + |a[0]|);
    }
  }

  lemma {:induction false} NoAccidentNoStarts(us: seq<unit>, at: nat)
    requires !HasAccident(us)
    ensures ListStarts(us, at) == []
  {
    if us != [] {
      AccidentFirst(us);
      hide HasAccident;
      NoAccidentNoStarts(us[1..], at + 4 + |us[0]|);
    }
  }

  /** The last octet of a length of 256 to 511 reads as the header of a parameter set, and the rest
      of the buffer fits the scratch buffer. */
  predicate TakenForSps(c: Codec, u: seq<byte>, size: nat) {
    && 256 <= |u| < 512
    && c.TypeOf(|u| - 256) == c.SpsType()
    && size <= 3 + c.HeaderLength() + RBSP_SIZE
  }

  lemma OneStart(pre: seq<unit>, u: unit, us: seq<unit>)
    requires AllClean(pre + ([u] + us)) && !HasAccident(pre) && !HasAccident(us)
    requires u != [] && u[0] != 0 && 256 <= |u| < 512
    ensures ListStarts(pre + ([u] + us), 0) == [|PrefixedStream(pre)| + 3]
  {
    hide AllClean, PrefixedStream, ListStarts, OwnStarts;
    PrefixedAppend(pre, [u] + us);
    ListStartsAppend(pre, [u] + us, 0);
    var off := |PrefixedStream(pre)|;
    NoAccidentNoStarts(pre, 0);
    NoAccidentNoStarts(us, off + 4 + |u|);
    hide HasAccident;
    ListStartsFirst(u, us, off);
    OwnIsFirst(u, off);
  }

  lemma ListStartsFirst(u: unit, us: seq<unit>, at: nat)
    ensures ListStarts([u] + us, at) == OwnStarts(u, at) + ListStarts(us, at + 4 + |u|)
  {
    hide OwnStarts;
    assert ([u] + us)[0] == u && ([u] + us)[1..] == us;
  }

  lemma OwnIsFirst(u: seq<byte>, at: nat)
    requires 256 <= |u| < 512 && u[0] != 0
    ensures OwnStarts(u, at) == [at + 3]
  {
  }

  /** The bytes around that accident. */
  lemma OneLayout(pre: seq<unit>, u: unit, us: seq<unit>)
    requires 256 <= |u| < 512
    ensures var d, off := PrefixedStream(pre + ([u] + us)), |PrefixedStream(pre)|;
            |d| >= off + 260 && d[off + 3] == |u| - 256 && d[off + 4..] == u + PrefixedStream(us)
  {
    PrefixedAppend(pre, [u] + us);
    ConsPrefixed(u, us);
    var front, rest := PrefixedStream(pre), PrefixedStream(us);
    hide PrefixedStream, FirstPrefixed;
    LengthInFront(u, rest);
    hide LengthField;
    Behind(front, LengthField(|u|) + (u + rest));
  }

  lemma Behind(front: seq<byte>, tail: seq<byte>)
    requires |tail| >= 260
    ensures (front + tail)[|front| + 3] == tail[3] && (front + tail)[|front| + 4..] == tail[4..]
  {
  }

  lemma EvenHitOne(c: Codec, d: seq<byte>, o: nat)
    requires o <= |d|
    ensures Rising([o], 0, |d|) && EvenHit(c, d, [o], 0) == ExamineAnnexB(c, d[o..])
  {
    hide ExamineAnnexB;
    assert Chunk(d, [o], 0) == d[o..|d|] == d[o..];
  }

  lemma ExamineTaken(c: Codec, d: seq<byte>, o: nat, n: nat)
    requires o + 257 <= |d| && 256 <= n < 512 && d[o] == n - 256
    ensures ExamineAnnexB(c, d[o..])
            == if c.TypeOf(n - 256) == c.SpsType() && |d| - o <= c.HeaderLength() + RBSP_SIZE
               then Some(Depth(c, Unescape(d[o + c.HeaderLength()..]))) else None
  {
    hide Depth, Unescape;
    assert d[o..][c.HeaderLength()..] == d[o + c.HeaderLength()..];
  }

  /** The answer when the length of one unit, at any place, is the one accident: that of the prefixed
      search, unless the last octet of that length reads as the header of a parameter set. */
  lemma OneLengthTaken(c: Codec, pre: seq<unit>, u: unit, us: seq<unit>)
    requires AllClean(pre + ([u] + us)) && !HasAccident(pre) && !HasAccident(us)
    requires u != [] && u[0] != 0 && 256 <= |u| < 512
    ensures var d, off := PrefixedStream(pre + ([u] + us)), |PrefixedStream(pre)|;
            && |d| >= off + 260
            && BitDepth(c, d) == if TakenForSps(c, u, |d| - off)
                                 then Depth(c, Unescape(d[off + 3 + c.HeaderLength()..]))
                                 else FirstPrefixed(c, pre + ([u] + us))
  {
    hide AllClean, HasAccident, PrefixedStream, FirstPrefixed, ListStarts, BitDepth, EvenHit, Depth, Unescape,
         Starts, Rising;
    OneStart(pre, u, us);
    OneLayout(pre, u, us);
    PrefixedExact(c, pre + ([u] + us));
    OneAnswer(c, PrefixedStream(pre + ([u] + us)), |PrefixedStream(pre)|, |u|);
  }

  lemma OneAnswer(c: Codec, d: seq<byte>, off: nat, n: nat)
    requires |d| >= off + 260 && 256 <= n < 512 && d[off + 3] == n - 256
    ensures Rising([off + 3], 0, |d|)
    ensures EvenHit(c, d, [off + 3], 0)
            == if c.TypeOf(n - 256) == c.SpsType() && |d| - off <= 3 + c.HeaderLength() + RBSP_SIZE
               then Some(Depth(c, Unescape(d[off + 3 + c.HeaderLength()..]))) else None
  {
    hide ExamineAnnexB, EvenHit, Depth, Unescape;
    EvenHitOne(c, d, off + 3);
    ExamineTaken(c, d, off + 3, n);
  }

  /** For H.264 and a unit whose first octet is none of the listed profiles: the answer is then 8. */
  lemma OneLengthEight(pre: seq<unit>, u: unit, us: seq<unit>)
    requires AllClean(pre + ([u] + us)) && !HasAccident(pre) && !HasAccident(us)
    requires u != [] && u[0] != 0 && !ReadsDepth(u[0]) && 256 <= |u| < 512
    ensures var d, off := PrefixedStream(pre + ([u] + us)), |PrefixedStream(pre)|;
            BitDepth(H264, d) == if |u| % 32 == 7 && |d| - off <= 2052 then 8
                                 else FirstPrefixed(H264, pre + ([u] + us))
  {
    hide AllClean, HasAccident, PrefixedStream, FirstPrefixed, BitDepth, Depth, Unescape, ReadsDepth;
    OneLengthTaken(H264, pre, u, us);
    OneLayout(pre, u, us);
    FirstOctetEight(u, PrefixedStream(us));
  }

  lemma FirstOctetEight(u: seq<byte>, rest: seq<byte>)
    requires u != [] && u[0] != 0 && !ReadsDepth(u[0])
    ensures Depth(H264, Unescape(u + rest)) == 8
  {
    hide Depth, Unescape, ReadsDepth;
    assert u + rest == [u[0]] + (u + rest)[1..];
    UnlistedFirstOctet(u[0], (u + rest)[1..]);
  }

  // ---------------------------------------------------------------- ordinary H.264 units

  /** A unit as cameras send them: its first octet is neither 0 nor 1 nor one of the listed profiles,
      and it is not a parameter set without payload. */
  predicate Ordinary(u: seq<byte>) {
    u != [] && u[0] > 1 && !ReadsDepth(u[0]) && (|u| == 1 ==> u[0] % 32 != 7)
  }

  /** A chunk that the Annex B pass takes for a usable H.264 parameter set. */
  predicate Passes(x: seq<byte>) {
    2 <= |x| <= 1 + RBSP_SIZE && x[0] % 32 == 7
  }

  /** One of the chunks j, j + 2, j + 4, ... does. */
  predicate EvenPasses(d: seq<byte>, starts: seq<nat>, j: nat)
    requires Rising(starts, 0, |d|)
    decreases |starts| - j
  {
    j < |starts| && (Passes(Chunk(d, starts, j)) || EvenPasses(d, starts, j + 2))
  }

  /** A chunk that passes is read as 8. */
  predicate ReadAsEight(x: seq<byte>) {
    Passes(x) ==> x[1] > 1 && !ReadsDepth(x[1])
  }

  lemma ExamineEight(x: seq<byte>)
    requires ReadAsEight(x)
    ensures ExamineAnnexB(H264, x) == if Passes(x) then Some(8) else None
  {
    hide Depth, Unescape;
    if Passes(x) {
      hide ReadsDepth;
      assert x[1..] == [x[1]] + x[2..];
      UnlistedFirstOctet(x[1], x[2..]);
    }
  }

  lemma {:induction false} EvenHitEight(d: seq<byte>, starts: seq<nat>, j: nat)
    requires Rising(starts, 0, |d|)
    requires forall k :: 0 <= k < |starts| ==> ReadAsEight(Chunk(d, starts, k))
    ensures EvenHit(H264, d, starts, j) == if EvenPasses(d, starts, j) then Some(8) else None
    decreases |starts| - j
  {
    hide ExamineAnnexB, ReadAsEight, Passes;
    if j < |starts| {
      ExamineEight(Chunk(d, starts, j));
      EvenHitEight(d, starts, j + 2);
    }
  }

  /** The start, if any, that the length of an ordinary unit makes. */
  lemma OrdinaryStarts(u: seq<byte>, at: nat)
    requires Ordinary(u)
    ensures OwnStarts(u, at) == if 256 <= |u| < 512 then [at + 3] else if |u| % 0x100_0000 == 1 then [at + 4] else []
  {
  }

  /** The chunk behind it, up to a start beyond the unit or the end of the buffer. */
  lemma OrdinaryChunk(d: seq<byte>, at: nat, u: seq<byte>, rest: seq<byte>, o: nat, end: nat)
    requires Ordinary(u) && |u| < 0x1_0000_0000 && at <= |d| && d[at..] == LengthField(|u|) + (u + rest)
    requires OwnStarts(u, at) == [o] && at + 4 + |u| <= end <= |d|
    ensures o <= end && ReadAsEight(d[o..end])
  {
    OrdinaryStarts(u, at);
    PrefixedLayout(d, at, u, rest);
    hide LengthField, OwnStarts, ReadsDepth;
    assert d[at + 4] == d[at + 4..at + 4 + |u|][0] == u[0];
  }

  /** In a list of ordinary units, every chunk from the k-th start on is read as 8 if it passes. */
  lemma {:induction false} OrdinaryChunks(d: seq<byte>, us: seq<unit>, at: nat, starts: seq<nat>, k: nat, j: nat)
    requires AllClean(us) && (forall i :: 0 <= i < |us| ==> Ordinary(us[i]))
    requires at <= |d| && d[at..] == PrefixedStream(us)
    requires Rising(starts, 0, |d|) && k <= |starts| && starts[k..] == ListStarts(us, at)
    requires k <= j < |starts|
    ensures ReadAsEight(Chunk(d, starts, j))
    decreases |us|
  {
    hide PrefixedStream, ListStarts, OwnStarts, LengthField, ReadAsEight, Ordinary, Clean, Rising, Chunk;
    if us == [] {
      NoListStarts(at);
    } else {
      var u, rest, next := us[0], us[1..], at + 4 + |us[0]|;
      var own, later := OwnStarts(u, at), ListStarts(rest, next);
      UnfoldList(us, at);
      PrefixedLayout(d, at, u, PrefixedStream(rest));
      ListStartsRise(rest, next);
      if j < k + |own| {
        OwnIsOne(u, at);
        OwnChunk(d, at, u, PrefixedStream(rest), starts, k, own, later);
      } else {
        DropOwn(starts, k, own, later);
        OrdinaryChunks(d, rest, next, starts, k + |own|, j);
      }
    }
  }

  lemma NoListStarts(at: nat)
    ensures ListStarts([], at) == []
  {
  }

  lemma OwnIsOne(u: unit, at: nat)
    requires Ordinary(u)
    ensures |OwnStarts(u, at)| <= 1
  {
    OrdinaryStarts(u, at);
  }

  lemma UnfoldList(us: seq<unit>, at: nat)
    requires us != []
    ensures PrefixedStream(us) == LengthField(|us[0]|) + (us[0] + PrefixedStream(us[1..]))
    ensures ListStarts(us, at) == OwnStarts(us[0], at) + ListStarts(us[1..], at + 4 + |us[0]|)
  {
    hide LengthField, OwnStarts;
  }

  lemma DropOwn(starts: seq<nat>, k: nat, own: seq<nat>, later: seq<nat>)
    requires k <= |starts| && starts[k..] == own + later
    ensures k + |own| <= |starts| && starts[k + |own|..] == later
  {
    assert starts[k + |own|..] == starts[k..][|own|..];
  }

  lemma OwnChunk(d: seq<byte>, at: nat, u: unit, rest: seq<byte>, starts: seq<nat>, k: nat, own: seq<nat>,
      later: seq<nat>)
    requires Ordinary(u) && at <= |d| && d[at..] == LengthField(|u|) + (u + rest) && own == OwnStarts(u, at)
        && |own| == 1
    requires Rising(starts, 0, |d|) && k < |starts| && starts[k..] == own + later
    requires Rising(later, at + 4 + |u| + 3, |d|)
    ensures ReadAsEight(Chunk(d, starts, k))
  {
    NextStartAfter(starts, k, own, later, at + 4 + |u|, |d|);
    PrefixedLayout(d, at, u, rest);
    hide OwnStarts, LengthField, ReadAsEight, Ordinary;
    OrdinaryChunk(d, at, u, rest, starts[k], if k + 1 < |starts| then starts[k + 1] else |d|);
  }

  lemma NextStartAfter(starts: seq<nat>, k: nat, own: seq<nat>, later: seq<nat>, next: nat, high: nat)
    requires k < |starts| && starts[k..] == own + later && |own| == 1 && Rising(later, next + 3, high)
    ensures own == [starts[k]] && (k + 1 < |starts| ==> starts[k + 1] >= next)
  {
    assert starts[k..][0] == starts[k];
    if k + 1 < |starts| {
      assert starts[k..][1] == starts[k + 1] == later[0];
    }
  }

  /** Every length-prefixed buffer of ordinary H.264 units, decided: the answer is 8 when one of the
      first, third, ... chunk passes for a parameter set, and the first usable unit otherwise. So it
      is right if and only if no such chunk passes or the right answer is 8. */
  lemma OrdinaryExact(us: seq<unit>)
    requires AllClean(us) && (forall i :: 0 <= i < |us| ==> Ordinary(us[i]))
    ensures var d, starts := PrefixedStream(us), ListStarts(us, 0);
            && Rising(starts, 0, |d|)
            && BitDepth(H264, d) == (if EvenPasses(d, starts, 0) then 8 else FirstPrefixed(H264, us))
            && (BitDepth(H264, d) == FirstPrefixed(H264, us)
                <==> !(EvenPasses(d, starts, 0) && FirstPrefixed(H264, us) != 8))
  {
    var d, starts := PrefixedStream(us), ListStarts(us, 0);
    PrefixedExact(H264, us);
    assert starts[0..] == starts && d[0..] == d;
    hide PrefixedStream, ListStarts, FirstPrefixed, BitDepth, ReadAsEight, Ordinary, Starts, Clean, EvenHit, EvenPasses;
    forall k | 0 <= k < |starts| ensures ReadAsEight(Chunk(d, starts, k)) {
      OrdinaryChunks(d, us, 0, starts, 0, k);
    }
    EvenHitEight(d, starts, 0);
  }

  /** A failing family: any H.264 parameter set in a unit below 256 octets, followed by an IDR slice of
      263 octets, is answered with 8, whatever depth it codes. */
  lemma SliceHidesSps(header: byte, s: H264Sps, more: seq<bit>, slice: seq<byte>)
    requires header % 32 == 7 && s.Valid() && |H264Unit(header, s, more)| < 256
    requires Clean(slice) && |slice| == 263 && slice[0] == 0x65
    ensures var us := [H264Unit(header, s, more), slice];
            && AllClean(us) && BitDepth(H264, PrefixedStream(us)) == 8
            && FirstPrefixed(H264, us) == if ReadsDepth(s.profileIdc) then 8 + s.bitDepthLumaMinus8 else 8
  {
    var u := H264Unit(header, s, more);
    H264UnitFacts(header, s, more);
    hide H264Unit, PrefixedStream, FirstPrefixed, ExaminePrefixed, BitDepth, Clean, ReadsDepth;
    assert [u, slice] == [u] + ([slice] + []) && [u, slice] == [u] + [slice];
    NoAccidentAlone(u);
    NoUnits();
    hide HasAccident;
    SmallSlice(u, slice);
    assert [slice] + [] == [slice];
    assert !ReadsDepth(0x65) by { SliceUnlisted(); }
    OneLengthEight([u], slice, []);
    ConsPrefixed(u, [slice]);
  }

  lemma SliceUnlisted()
    ensures !ReadsDepth(0x65)
  {
  }

  lemma NoAccidentAlone(u: seq<byte>)
    requires 1 < |u| < 256 && u[0] != 0
    ensures !HasAccident([u])
  {
    assert !Accident(u);
  }

  lemma SmallSlice(u: seq<byte>, slice: seq<byte>)
    requires 0 < |u| < 256 && |slice| == 263
    ensures |PrefixedStream([u])| == 4 + |u| && |PrefixedStream([u, slice])| == 4 + |u| + 267
  {
    AloneSize(u);
    AloneSize(slice);
    assert [u, slice] == [u] + [slice];
    PrefixedAppend([u], [slice]);
  }

  // ---------------------------------------------------------------- which units are taken

  /** The type field of the unit header, as each standard lays it out, is not that of a parameter set. A
      unit of one octet has no H.265 header. */
  predicate OtherUnit(c: Codec, u: unit) {
    if c.H264? then u[0] % 32 != 7 else |u| == 1 || u[0] / 2 % 64 != 33
  }

  lemma {:induction false} OthersPassedOver(c: Codec, pre: seq<unit>, us: seq<unit>)
    requires forall i :: 0 <= i < |pre| ==> OtherUnit(c, pre[i])
    ensures FirstPrefixed(c, pre + us) == FirstPrefixed(c, us)
  {
    if pre == [] {
      assert pre + us == us;
    } else {
      assert OtherUnit(c, pre[0]);
      assert (pre + us)[0] == pre[0] && (pre + us)[1..] == pre[1..] + us;
      OthersPassedOver(c, pre[1..], us);
    }
  }

  /** The unit that carries an H.265 parameter set. */
  function HevcUnit(h0: byte, h1: byte, s: HevcSps, more: seq<bit>): seq<byte>
    requires |s.subLayers| <= 8
  {
    [h0, h1] + Escape(Rbsp(EncodeHevc(s) + more))
  }

  lemma HevcUnitFacts(h0: byte, h1: byte, s: HevcSps, more: seq<bit>)
    requires h0 / 2 % 64 == 33 && h1 != 0 && s.Valid() && s.subLayers == []
    requires |HevcUnit(h0, h1, s, more)| <= 2050
    ensures var u := HevcUnit(h0, h1, s, more);
            && |u| > 2 && Clean(u) && ExaminePrefixed(Hevc, u) == Some(8 + s.bitDepthLumaMinus8)
  {
    hide Rbsp, EncodeHevc, Escape, ExaminePrefixed, Clean, Depth, At;
    var data := EncodeHevc(s) + more;
    RbspAlone(data);
    assert |HevcUnit(h0, h1, s, more)| == 2 + |Escape(Rbsp(data))|;
    EscapedUnit(h0, h1, Rbsp(data));
    HevcRbspDepth(s, more, Rbsp(data));
  }

  lemma RbspAlone(data: seq<bit>)
    ensures Rbsp(data) != [] && Rbsp(data)[|Rbsp(data)| - 1] != 0 && At(BitsOf(Rbsp(data)), 0, data)
  {
    RbspLayout(data, []);
    assert Rbsp(data) + [] == Rbsp(data);
  }

  lemma HevcRbspDepth(s: HevcSps, more: seq<bit>, rbsp: seq<byte>)
    requires s.Valid() && s.subLayers == [] && At(BitsOf(rbsp), 0, EncodeHevc(s) + more)
    ensures Depth(Hevc, rbsp) == 8 + s.bitDepthLumaMinus8
  {
    hide EncodeHevc, HevcDepth;
    AtSplit(BitsOf(rbsp), 0, EncodeHevc(s), more);
    HevcDepthOfEncoded(BitsOf(rbsp), s);
  }

  lemma EscapedUnit(h0: byte, h1: byte, rbsp: seq<byte>)
    requires h0 / 2 % 64 == 33 && h1 != 0 && rbsp != [] && rbsp[|rbsp| - 1] != 0 && |Escape(rbsp)| <= 2048
    ensures var u := [h0, h1] + Escape(rbsp);
            |u| > 2 && Clean(u) && ExaminePrefixed(Hevc, u) == Some(Depth(Hevc, rbsp))
  {
    EscapeFromLast(rbsp, 0);
    assert Clean([h0, h1]);
    EscapedUnitIsClean([h0, h1], rbsp);
    hide Unescape, Escape, Clean, Depth;
    UnescapeWhole(rbsp);
    assert ([h0, h1] + Escape(rbsp))[2..] == Escape(rbsp);
  }

  /** Every length-prefixed H.265 buffer of clean units without an accident: a parameter set without
      sub-layers, behind units of other types, is reported with its coded depth. */
  lemma PrefixedHevcSps(pre: seq<unit>, h0: byte, h1: byte, s: HevcSps, more: seq<bit>, us: seq<unit>)
    requires h0 / 2 % 64 == 33 && h1 != 0 && s.Valid() && s.subLayers == []
    requires |HevcUnit(h0, h1, s, more)| <= 2050
    requires forall i :: 0 <= i < |pre| ==> |pre[i]| == 1 || pre[i][0] / 2 % 64 != 33
    requires AllClean(pre) && AllClean(us) && !HasAccident(pre + ([HevcUnit(h0, h1, s, more)] + us))
    ensures BitDepth(Hevc, PrefixedStream(pre + ([HevcUnit(h0, h1, s, more)] + us))) == 8 + s.bitDepthLumaMinus8
  {
    HevcUnitFacts(h0, h1, s, more);
    var u: unit := HevcUnit(h0, h1, s, more);
    hide HevcUnit, BitDepth, PrefixedStream, FirstPrefixed, ExaminePrefixed, Clean, HasAccident;
    ConsClean(u, us);
    PrefixedStreamDepth(Hevc, pre + ([u] + us));
    OthersPassedOver(Hevc, pre, [u] + us);
    ConsPrefixed(u, us);
  }

  /** The same for every H.264 parameter set. */
  lemma PrefixedH264Sps(pre: seq<unit>, header: byte, s: H264Sps, more: seq<bit>, us: seq<unit>)
    requires header % 32 == 7 && s.Valid() && |H264Unit(header, s, more)| <= 2049
    requires forall i :: 0 <= i < |pre| ==> pre[i][0] % 32 != 7
    requires AllClean(pre) && AllClean(us) && !HasAccident(pre + ([H264Unit(header, s, more)] + us))
    ensures BitDepth(H264, PrefixedStream(pre + ([H264Unit(header, s, more)] + us)))
            == if ReadsDepth(s.profileIdc) then 8 + s.bitDepthLumaMinus8 else 8
  {
    H264UnitFacts(header, s, more);
    var u: unit := H264Unit(header, s, more);
    hide H264Unit, BitDepth, PrefixedStream, FirstPrefixed, ExaminePrefixed, Clean, HasAccident;
    ConsClean(u, us);
    PrefixedStreamDepth(H264, pre + ([u] + us));
    OthersPassedOver(H264, pre, [u] + us);
    ConsPrefixed(u, us);
  }

  // ---------------------------------------------------------------- where the prefixed search ends

  /** Fewer than four octets, a length of zero, or a length beyond the end of the buffer. */
  predicate EndsSearch(tail: seq<byte>) {
    |tail| < 4 || tail[..4] == [0, 0, 0, 0] || BE(tail[..4]) > |tail| - 4
  }

  lemma {:induction false} PrefixedUpTo(c: Codec, d: seq<byte>, off: nat, us: seq<unit>, tail: seq<byte>)
    requires off <= |d| && d[off..] == PrefixedStream(us) + tail && EndsSearch(tail)
    ensures Prefixed(c, d, off) == FirstPrefixed(c, us)
    decreases |us|
  {
    hide ExaminePrefixed;
    if us == [] {
      assert d[off..] == tail;
      EndsHere(c, d, off, tail);
    } else {
      var u, rest := us[0], PrefixedStream(us[1..]);
      LengthInverse(|u|);
      Nest(LengthField(|u|), u, rest, tail);
      PrefixedLayout(d, off, u, rest + tail);
      hide BE, LengthField, EndsSearch;
      PrefixedUpTo(c, d, off + 4 + |u|, us[1..], tail);
    }
  }

  lemma EndsHere(c: Codec, d: seq<byte>, off: nat, tail: seq<byte>)
    requires off <= |d| && d[off..] == tail && EndsSearch(tail)
    ensures Prefixed(c, d, off) == 0
  {
    if |tail| >= 4 {
      assert d[off..off + 4] == tail[..4];
      BEOfFour(tail[..4]);
    }
  }

  /** A buffer without start codes whose units are followed by such an end, and then by anything: only the
      units in front of it are searched. */
  lemma SearchEnds(c: Codec, us: seq<unit>, tail: seq<byte>)
    requires EndsSearch(tail) && !HasStartCode(PrefixedStream(us) + tail)
    ensures BitDepth(c, PrefixedStream(us) + tail) == FirstPrefixed(c, us)
  {
    var d := PrefixedStream(us) + tail;
    NoStartCodeNoAnnexB(c, d);
    assert d[0..] == d;
    hide PrefixedStream, FirstPrefixed, Prefixed, AnnexB, EndsSearch;
    PrefixedUpTo(c, d, 0, us, tail);
    if |d| < 4 {
      ShortList(c, us, tail);
    }
  }

  lemma ShortList(c: Codec, us: seq<unit>, tail: seq<byte>)
    requires |PrefixedStream(us) + tail| < 4
    ensures FirstPrefixed(c, us) == 0
  {
  }

  // ---------------------------------------------------------------- a unit of 263 octets

  /** A parameter set of the High 10 profile with a depth of 10. */
  const TEN_BIT_SPS := H264Sps(110, 255, 255, 0, 1, 0, 2)

  lemma TenBitBits()
    ensures EncodeH264(TEN_BIT_SPS) == U(8, 110) + (U(8, 255) + (U(8, 255) + [1, 0, 1, 0, 0, 1, 1]))
    ensures U(8, 110)[2] == 1 && U(8, 255)[2] == 1
  {
    assert Ue(0) == [1];
    assert Ue(1) == [0, 1, 0];
    assert Ue(2) == [0, 1, 1];
    assert Ue(0) + (Ue(1) + [] + Ue(2)) == [1, 0, 1, 0, 0, 1, 1];
    BitOfU(8, 110, 2);
    BitOfU(8, 255, 2);
  }

  /** Octets whose third bit is set are not zero. */
  lemma {:induction false} PackNonZero(s: seq<bit>, k: nat)
    requires |s| % 8 == 0 && k < |s| / 8
    requires forall i :: 0 <= i < |s| / 8 ==> s[8 * i + 2] == 1
    ensures Pack(s)[k] != 0
  {
    if k == 0 {
      assert s[8 * 0 + 2] == 1;
      ValuePositive(s[..8], 2);
    } else {
      forall i | 0 <= i < |s[8..]| / 8 ensures s[8..][8 * i + 2] == 1 {
        assert s[8..][8 * i + 2] == s[8 * (i + 1) + 2];
      }
      PackNonZero(s[8..], k - 1);
    }
  }

  lemma {:induction false} NothingToEscape(p: seq<byte>)
    requires forall i :: 0 <= i < |p| ==> p[i] != 0
    ensures Escape(p) == p
  {
    if p != [] {
      NothingToEscape(p[1..]);
    }
  }

  lemma ThirdBitsSet(a: seq<bit>, b: seq<bit>, c: seq<bit>, n: nat, i: nat)
    requires |a| == |b| == |c| == 8 && a[2] == 1 && b[2] == 1 && c[2] == 1 && i < 4 + n
    ensures var s := a + (b + (c + [1, 0, 1, 0, 0, 1, 1])) + OneBits(8 * n) + [1];
            |s| == 8 * (4 + n) && s[8 * i + 2] == 1
  {
    var s := a + (b + (c + [1, 0, 1, 0, 0, 1, 1])) + OneBits(8 * n) + [1];
    if i >= 4 {
      assert s[8 * i + 2] == OneBits(8 * n)[8 * i + 2 - 31];
    }
  }

  lemma TenBitThirdBits(i: nat)
    requires i < 262
    ensures var s := EncodeH264(TEN_BIT_SPS) + OneBits(2064) + [1]; |s| == 2096 && s[8 * i + 2] == 1
  {
    TenBitBits();
    hide EncodeH264, U, OneBits;
    ThirdBitsSet(U(8, 110), U(8, 255), U(8, 255), 258, i);
  }

  /** Padded with one bits it makes a unit of 263 octets. */
  lemma TenBitUnitSize(header: byte)
    ensures |H264Unit(header, TEN_BIT_SPS, OneBits(2064))| == 263
  {
    hide EncodeH264, OneBits, Pack, Escape;
    var data := EncodeH264(TEN_BIT_SPS) + OneBits(2064);
    var s := data + [1];
    TenBitThirdBits(0);
    forall i | 0 <= i < 262 ensures s[8 * i + 2] == 1 {
      TenBitThirdBits(i);
    }
    RbspOfWhole(data);
    hide Rbsp;
    forall k | 0 <= k < |Pack(s)| ensures Pack(s)[k] != 0 {
      PackNonZero(s, k);
    }
    NothingToEscape(Pack(s));
  }

  lemma RbspOfWhole(data: seq<bit>)
    requires |data| % 8 == 7
    ensures Rbsp(data) == Pack(data + [1])
  {
    hide Pack;
    assert data + [1] + ZeroBits(7 - |data| % 8) == data + [1];
  }

  ghost predicate Carries(u: seq<byte>, header: byte, s: H264Sps) {
    exists more: seq<bit> :: u == H264Unit(header, s, more)
  }

  /** The failing input: a length-prefixed buffer with a ten-bit unit alone is answered with 8. */
  lemma TenBitsReadAsEight(header: byte) returns (s: H264Sps, us: seq<unit>)
    requires header % 32 == 7
    ensures s.Valid() && s.bitDepthLumaMinus8 == 2
    ensures |us| == 1 && |us[0]| == 263 && Carries(us[0], header, s)
    ensures AllClean(us) && FirstPrefixed(H264, us) == 10 && BitDepth(H264, PrefixedStream(us)) == 8
  {
    var more := OneBits(2064);
    TenBitUnitSize(header);
    s := TEN_BIT_SPS;
    var u: unit := H264Unit(header, s, more);
    us := [u];
    hide H264Unit, OneBits, BitDepth, PrefixedStream, FirstPrefixed, ExaminePrefixed, Clean, ReadsDepth;
    H264UnitFacts(header, s, more);
    Listed(header);
    AloneIsEight(u);
    AloneFirst(u);
  }

  /** A clean unit of 256 to 511 octets and of size 7 modulo 32, alone in its buffer. */
  lemma AloneIsEight(u: unit)
    requires Clean(u) && u[0] != 0 && !ReadsDepth(u[0]) && 256 <= |u| < 512 && |u| % 32 == 7
    ensures BitDepth(H264, PrefixedStream([u])) == 8
  {
    hide BitDepth, PrefixedStream, FirstPrefixed, Clean, ReadsDepth;
    NoUnits();
    hide HasAccident;
    assert [] + ([u] + []) == [u];
    OneLengthEight([], u, []);
    AloneSize(u);
    EmptySize();
  }

  lemma AloneFirst(u: unit)
    ensures ExaminePrefixed(H264, u).Some? ==> FirstPrefixed(H264, [u]) == ExaminePrefixed(H264, u).value
  {
    hide ExaminePrefixed;
    assert [u][0] == u;
  }

  lemma Listed(header: byte)
    requires header % 32 == 7
    ensures ReadsDepth(110) && !ReadsDepth(header)
  {
  }

  lemma EmptySize()
    ensures |PrefixedStream([])| == 0
  {
  }

  lemma AloneSize(u: unit)
    ensures |PrefixedStream([u])| == 4 + |u|
  {
    assert [u][0] == u && [u][1..] == [];
  }
}
