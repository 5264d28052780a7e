/** What the parameter-set search of src/hwdecode/hw_decode.c finds in whole streams. */
module NalStream {
  import opened Common
  import opened Bits
  import opened Sps
  import opened Nal

  // ---------------------------------------------------------------- Annex B streams

  /** A NAL unit and the zero octets of the start code in front of it (Annex B of H.264: two,
      three with zero_byte, more with trailing_zero_8bits of the unit before). */
  datatype Unit = Unit(zeros: nat, nal: seq<byte>) {
    ghost predicate Valid() { zeros >= 2 && Clean(nal) }
  }

  ghost predicate ValidUnits(us: seq<Unit>) {
    forall u :: u in us ==> u.Valid()
  }

  /** The stream of the units, with t zero octets after the last. */
  function Stream(us: seq<Unit>, t: nat): seq<byte> {
    if us == [] then Zeros(t)
    else Zeros(us[0].zeros) + [1] + (us[0].nal + Stream(us[1..], t))
  }

  /** What follows the first unit. */
  function After(us: seq<Unit>, t: nat): Rest
    requires us != []
  {
    if |us| == 1 then End(t) else More(us[1].zeros, us[1].nal + Stream(us[2..], t))
  }

  lemma AfterIsStream(us: seq<Unit>, t: nat)
    requires us != []
    ensures After(us, t).Bytes() == Stream(us[1..], t)
  {
    if |us| > 1 {
      assert us[1..][1..] == us[2..];
    }
  }

  /** The first unit as the loop measures it: up to the end of the next start code. */
  function Measured(us: seq<Unit>, t: nat): seq<byte>
    requires us != []
  {
    us[0].nal + After(us, t).Counted()
  }

  /** Examine the first unit, then step over the second. */
  function EvenScan(c: Codec, us: seq<Unit>, t: nat): Option<int> {
    if us == [] then None
    else
      var hit := ExamineAnnexB(c, Measured(us, t));
      if hit.Some? || |us| < 3 then hit else EvenScan(c, us[2..], t)
  }

  /** Where the unit ends, what is counted into it, and where the next one begins. */
  lemma MeasureUnit(d: seq<byte>, start: nat, us: seq<Unit>, t: nat)
    requires us != [] && ValidUnits(us)
    requires start <= |d| && d[start..] == us[0].nal + Stream(us[1..], t)
    ensures var next := NextStart(d, start);
            && next.None? == (|us| == 1)
            && d[start..if next.None? then |d| else next.value] == Measured(us, t)
            && (next.Some? ==> d[next.value..] == us[1].nal + Stream(us[2..], t))
  {
    var nal, r := us[0].nal, After(us, t);
    assert us[0].Valid();
    assert |us| > 1 ==> us[1].Valid();
    AfterIsStream(us, t);
    hide Stream;
    MeasureFirst(d, start, nal, r);
    Cut(d, start, nal, r.Bytes());
    NextAfterUnit(d, start, start + |nal|, r);
    if |us| > 1 {
      Cut(d, start + |nal|, r.Counted(), r.bytes);
    }
  }

  lemma {:induction false} ScanFrom(c: Codec, d: seq<byte>, start: nat, us: seq<Unit>, t: nat)
    requires us != [] && ValidUnits(us)
    requires start <= |d| && d[start..] == us[0].nal + Stream(us[1..], t)
    ensures AnnexBFrom(c, d, start) == EvenScan(c, us, t)
    decreases |us|
  {
    hide Stream, ExamineAnnexB, Measured, NextStart;
    MeasureUnit(d, start, us, t);
    var next := NextStart(d, start);
    if ExamineAnnexB(c, Measured(us, t)).None? && |us| > 1 {
      assert us[1..][1..] == us[2..];
      MeasureUnit(d, next.value, us[1..], t);
      if |us| > 2 {
        assert us[2..][1..] == us[3..] && us[1..][2..] == us[3..];
        ScanFrom(c, d, NextStart(d, next.value).value, us[2..], t);
      }
    }
  }

  /** The loop examines exactly the units at even positions of any stream of clean units, each
      measured up to the end of the following start code. */
  lemma AnnexBScansEvenUnits(c: Codec, us: seq<Unit>, t: nat)
    requires ValidUnits(us)
    ensures AnnexB(c, Stream(us, t)) == EvenScan(c, us, t)
  {
    var d := Stream(us, t);
    assert Clean([]);
    assert d[0..0] == [] && d[0..] == d;
    if us == [] {
      NextAfterUnit(d, 0, 0, End(t));
    } else {
      assert us[0].Valid();
      var r := More(us[0].zeros, us[0].nal + Stream(us[1..], t));
      NextAfterUnit(d, 0, 0, r);
      assert d[|r.Counted()|..] == r.bytes;
      ScanFrom(c, d, us[0].zeros + 1, us, t);
    }
  }

  // ---------------------------------------------------------------- which unit is reported

  /** Unit i is a parameter set of usable size. */
  predicate Usable(c: Codec, us: seq<Unit>, t: nat, i: nat)
    requires i < |us|
  {
    ExamineAnnexB(c, Measured(us[i..], t)).Some?
  }

  /** The first usable unit among i, i + step, i + 2 * step, ... */
  function FirstUsable(c: Codec, us: seq<Unit>, t: nat, i: nat, step: nat): (r: Option<nat>)
    requires 1 <= step <= 2
    ensures r.Some? ==> r.value < |us| && Usable(c, us, t, r.value)
    decreases |us| - i
  {
    if i >= |us| then None
    else if Usable(c, us, t, i) then Some(i)
    else FirstUsable(c, us, t, i + step, step)
  }

  lemma {:induction false} FirstUsableIsFirst(c: Codec, us: seq<Unit>, t: nat, i: nat, step: nat)
    requires 1 <= step <= 2 && i % step == 0
    ensures match FirstUsable(c, us, t, i, step)
            case None => forall j :: i <= j < |us| && j % step == 0 ==> !Usable(c, us, t, j)
            case Some(k) => i <= k < |us| && k % step == 0 && Usable(c, us, t, k)
                            && forall j :: i <= j < k && j % step == 0 ==> !Usable(c, us, t, j)
    decreases |us| - i
  {
    hide Usable;
    if i < |us| && !Usable(c, us, t, i) {
      FirstUsableIsFirst(c, us, t, i + step, step);
    }
  }

  lemma {:induction false} EvenScanReports(c: Codec, us: seq<Unit>, t: nat, i: nat)
    requires i <= |us|
    ensures EvenScan(c, us[i..], t) == match FirstUsable(c, us, t, i, 2)
                                       case None => None
                                       case Some(k) => ExamineAnnexB(c, Measured(us[k..], t))
    decreases |us| - i
  {
    hide ExamineAnnexB, Measured;
    if i < |us| && !Usable(c, us, t, i) && i + 2 < |us| {
      EvenScanReports(c, us, t, i + 2);
      assert us[i..][2..] == us[i + 2..];
    }
  }

  /** The parameter set reported is the first usable one of the whole stream if and only if that
      one stands at an even position (or there is none). */
  lemma AnnexBExact(c: Codec, us: seq<Unit>, t: nat)
    requires ValidUnits(us)
    ensures var reported := FirstUsable(c, us, t, 0, 2);
            var first := FirstUsable(c, us, t, 0, 1);
            && AnnexB(c, Stream(us, t)) == (if reported.None? then None
                                            else ExamineAnnexB(c, Measured(us[reported.value..], t)))
            && (reported == first <==> first.None? || first.value % 2 == 0)
  {
    hide ExamineAnnexB, Measured, Stream, AnnexB;
    AnnexBScansEvenUnits(c, us, t);
    EvenScanReports(c, us, t, 0);
    assert us[0..] == us;
    FirstUsableIsFirst(c, us, t, 0, 2);
    FirstUsableIsFirst(c, us, t, 0, 1);
  }

  lemma FirstOctets(us: seq<Unit>, t: nat)
    requires us != [] && us[0].zeros == 2 && us[0].nal != []
    ensures var d := Stream(us, t);
            |d| == 3 + |us[0].nal| + |Stream(us[1..], t)| && d[0..4] == [0, 0, 1, us[0].nal[0]]
  {
  }

  /** A short stream of a video parameter set and then a sequence parameter set, as H.265
      encoders send them, is answered with "unknown" whatever the second unit holds. */
  lemma VpsThenSpsIsMissed(vps: seq<byte>, sps: Unit)
    requires Clean(vps) && sps.Valid() && |vps| >= 2 && vps[0] == 0x40
    requires |vps| + sps.zeros + |sps.nal| <= 319
    ensures BitDepth(Hevc, Stream([Unit(2, vps), sps], 0)) == 0
  {
    hide TrySps, AnnexB, Prefixed;
    var us := [Unit(2, vps), sps];
    AnnexBScansEvenUnits(Hevc, us, 0);
    FirstOctets(us, 0);
    assert us[1..] == [sps] && [sps][1..] == [];
    assert |Stream([sps], 0)| == sps.zeros + 1 + |sps.nal|;
    hide Stream;
    OverlongPrefix(Hevc, Stream(us, 0));
    assert Measured(us, 0)[0] == 0x40;
  }

  /** The first octets behind a four-octet start code. */
  lemma FirstOctetsLong(us: seq<Unit>, t: nat)
    requires us != [] && us[0].zeros == 3 && |us[0].nal| >= 2
    ensures var d := Stream(us, t);
            && |d| >= 6 && d[0..4] == [0, 0, 0, 1] && d[4] == us[0].nal[0] && d[5] == us[0].nal[1]
  {
  }

  /** Read as length prefixes, a four-octet start code is a unit of one octet, and the octets after
      that are an overlong length. */
  lemma StartCodeAsPrefix(c: Codec, d: seq<byte>)
    requires 6 <= |d| < 0x100_0000 && d[0..4] == [0, 0, 0, 1] && d[4] % 32 != c.SpsType() && d[5] != 0
    ensures Prefixed(c, d, 0) == 0
  {
    BEOfFour(d[0..4]);
    assert d[4..5][0] == d[4];
    if |d| >= 9 {
      BEOfFour(d[5..9]);
      assert d[5..9][0] == d[5] && BE(d[5..9]) >= 0x100_0000;
    }
  }

  /** An access unit below 16 MiB that begins, behind a four-octet start code, with a unit that is not a
      parameter set and whose second octet is not zero, is answered with the first usable parameter
      set at an even position, and with "unknown" when there is none; so never with one that directly
      follows the first unit. */
  lemma OtherFirstExact(c: Codec, us: seq<Unit>, t: nat)
    requires ValidUnits(us) && us != [] && us[0].zeros == 3 && |Stream(us, t)| < 0x100_0000
    requires |us[0].nal| >= 2 && us[0].nal[0] % 32 != c.SpsType() && us[0].nal[1] != 0
    ensures BitDepth(c, Stream(us, t))
            == match FirstUsable(c, us, t, 0, 2)
               case None => 0
               case Some(k) => ExamineAnnexB(c, Measured(us[k..], t)).value
  {
    AnnexBExact(c, us, t);
    FirstOctetsLong(us, t);
    hide ExamineAnnexB, Measured, Stream, AnnexB, Prefixed;
    StartCodeAsPrefix(c, Stream(us, t));
  }

  /** The usual H.265 access unit, a video parameter set first. */
  lemma VpsFirstExact(us: seq<Unit>, t: nat)
    requires ValidUnits(us) && us != [] && us[0].zeros == 3 && |Stream(us, t)| < 0x100_0000
    requires |us[0].nal| >= 2 && us[0].nal[0] == 0x40 && us[0].nal[1] != 0
    ensures BitDepth(Hevc, Stream(us, t))
            == match FirstUsable(Hevc, us, t, 0, 2)
               case None => 0
               case Some(k) => ExamineAnnexB(Hevc, Measured(us[k..], t)).value
  {
    hide ExamineAnnexB, Measured, Stream, BitDepth, FirstUsable;
    OtherFirstExact(Hevc, us, t);
  }

  lemma {:induction false} NoneUsable(us: seq<Unit>, t: nat, i: nat)
    requires i % 2 == 0
    requires forall k :: 0 <= k < |us| && k % 2 == 0 ==> us[k].nal != [] && us[k].nal[0] % 32 != 7
    ensures FirstUsable(H264, us, t, i, 2).None?
    decreases |us| - i
  {
    if i < |us| {
      assert Measured(us[i..], t)[0] == us[i].nal[0];
      hide TrySps, Measured;
      NoneUsable(us, t, i + 2);
    }
  }

  /** H.264 access units that begin with an access unit delimiter: with the parameter sets at odd
      positions only, as in delimiter, sequence parameter set, picture parameter set, slice, the
      depth stays unknown, whatever it is. */
  lemma DelimiterFirstIsMissed(us: seq<Unit>, t: nat, kind: byte)
    requires ValidUnits(us) && us != [] && us[0].zeros == 3 && |Stream(us, t)| < 0x100_0000
    requires us[0].nal == [9, kind] && kind != 0
    requires forall k :: 0 <= k < |us| && k % 2 == 0 ==> us[k].nal != [] && us[k].nal[0] % 32 != 7
    ensures BitDepth(H264, Stream(us, t)) == 0
  {
    hide Stream, BitDepth, FirstUsable;
    OtherFirstExact(H264, us, t);
    NoneUsable(us, t, 0);
  }

  lemma OverlongPrefix(c: Codec, d: seq<byte>)
    requires 4 <= |d| <= 323 && d[0..4] == [0, 0, 1, 0x40]
    ensures Prefixed(c, d, 0) == 0
  {
    BEOfFour(d[0..4]);
  }

  // ---------------------------------------------------------------- a parameter set first

  /** rbsp_trailing_bits(): a one bit and zeros up to a whole number of octets. */
  function Rbsp(data: seq<bit>): seq<byte> {
    Pack(data + [1] + ZeroBits(7 - |data| % 8))
  }

  lemma {:induction false} PackLast(s: seq<bit>)
    requires |s| % 8 == 0 && s != []
    ensures Pack(s)[|s| / 8 - 1] == Value(s[|s| - 8..])
  {
    if |s| == 8 {
      assert s[..8] == s && s[0..] == s && s[8..] == [];
    } else {
      PackLast(s[8..]);
      assert s[8..][|s| - 16..] == s[|s| - 8..];
    }
  }

  lemma {:induction false} ValuePositive(s: seq<bit>, i: nat)
    requires i < |s| && s[i] == 1
    ensures Value(s) > 0
  {
    if i < |s| - 1 {
      ValuePositive(s[..|s| - 1], i);
    }
  }

  /** The payload begins with the syntax bits, whatever follows it, and ends in a non-zero octet. */
  lemma RbspLayout(data: seq<bit>, junk: seq<byte>)
    ensures Rbsp(data) != [] && Rbsp(data)[|Rbsp(data)| - 1] != 0
    ensures At(BitsOf(Rbsp(data) + junk), 0, data)
  {
    var s := data + [1] + ZeroBits(7 - |data| % 8);
    BitsOfPack(s);
    BitsOfAppend(Rbsp(data), junk);
    PackLast(s);
    ValuePositive(s[|s| - 8..], |data| % 8);
    assert (s + BitsOf(junk))[0..|data|] == data;
  }

  /** A unit first in a stream is examined, together with what the scanner counts into it. */
  lemma ExamineFirst(c: Codec, zeros: nat, nal: seq<byte>, r: Rest)
    requires zeros >= 2 && r.Valid() && Clean(nal) && nal != []
    requires ExamineAnnexB(c, nal + r.Counted()).Some?
    ensures BitDepth(c, Zeros(zeros) + [1] + (nal + r.Bytes()))
            == ExamineAnnexB(c, nal + r.Counted()).value
  {
    hide ExamineAnnexB, NextStart;
    var first := More(zeros, nal + r.Bytes());
    var d := first.Bytes();
    assert Clean([]) && d[0..0] == [] && d[0..] == d;
    NextAfterUnit(d, 0, 0, first);
    var start := zeros + 1;
    assert d[start..] == nal + r.Bytes();
    MeasureFirst(d, start, nal, r);
  }

  lemma MeasureFirst(d: seq<byte>, start: nat, nal: seq<byte>, r: Rest)
    requires start <= |d| && d[start..] == nal + r.Bytes() && Clean(nal) && r.Valid()
    ensures var next := NextStart(d, start);
            d[start..if next.None? then |d| else next.value] == nal + r.Counted()
  {
    Cut(d, start, nal, r.Bytes());
    NextAfterUnit(d, start, start + |nal|, r);
    hide NextStart, Clean, Zeros;
    var rest := if r.End? then [] else r.bytes;
    assert r.Bytes() == r.Counted() + rest;
    assert nal + (r.Counted() + rest) == (nal + r.Counted()) + rest;
    Cut(d, start, nal + r.Counted(), rest);
  }

  lemma DepthOfFirst(c: Codec, zeros: nat, header: seq<byte>, data: seq<bit>, r: Rest)
    requires zeros >= 2 && r.Valid() && |header| == c.HeaderLength()
    requires Clean(header) && c.TypeOf(header[0]) == c.SpsType()
    requires |Escape(Rbsp(data))| + |r.Counted()| <= RBSP_SIZE
    ensures BitDepth(c, Zeros(zeros) + [1] + (header + Escape(Rbsp(data)) + r.Bytes()))
            == Depth(c, Rbsp(data) + Unescape(r.Counted()))
  {
    RbspLayout(data, []);
    hide Rbsp, Depth, BitDepth;
    var rbsp, tail := Rbsp(data), r.Counted();
    var nal := header + Escape(rbsp);
    EscapeFromLast(rbsp, 0);
    EscapedUnitIsClean(header, rbsp);
    UnescapeEscapeThen(rbsp, tail);
    assert Escape(rbsp) != [];
    hide Escape, Unescape;
    assert (nal + tail)[|header|..] == Escape(rbsp) + tail;
    assert (nal + tail)[0] == header[0];
    assert TrySps(c, nal + tail) == Some(Depth(c, rbsp + Unescape(tail)));
    ExamineFirst(c, zeros, nal, r);
  }

  /** An H.264 parameter set of any profile, first in an Annex B stream and followed by anything,
      is reported with its coded depth (with 8 for profiles outside the walk's list). */
  lemma H264StreamDepth(zeros: nat, header: byte, s: H264Sps, more: seq<bit>, r: Rest)
    requires zeros >= 2 && r.Valid() && header % 32 == 7 && s.Valid()
    requires |Escape(Rbsp(EncodeH264(s) + more))| + |r.Counted()| <= RBSP_SIZE
    ensures var unit := [header] + Escape(Rbsp(EncodeH264(s) + more));
            BitDepth(H264, Zeros(zeros) + [1] + (unit + r.Bytes()))
            == if ReadsDepth(s.profileIdc) then 8 + s.bitDepthLumaMinus8 else 8
  {
    var data := EncodeH264(s) + more;
    var junk := Unescape(r.Counted());
    DepthOfFirst(H264, zeros, [header], data, r);
    hide Escape, Rbsp, EncodeH264, BitDepth, H264Depth;
    RbspLayout(data, junk);
    var b := BitsOf(Rbsp(data) + junk);
    AtSplit(b, 0, EncodeH264(s), more);
    H264DepthOfEncoded(b, s);
  }

  /** The same for every H.265 parameter set without sub-layers. */
  lemma HevcStreamDepth(zeros: nat, h0: byte, h1: byte, s: HevcSps, more: seq<bit>, r: Rest)
    requires zeros >= 2 && r.Valid() && h0 / 2 % 64 == 33 && h1 != 0
    requires s.Valid() && s.subLayers == []
    requires |Escape(Rbsp(EncodeHevc(s) + more))| + |r.Counted()| <= RBSP_SIZE
    ensures var unit := [h0, h1] + Escape(Rbsp(EncodeHevc(s) + more));
            BitDepth(Hevc, Zeros(zeros) + [1] + (unit + r.Bytes())) == 8 + s.bitDepthLumaMinus8
  {
    var data := EncodeHevc(s) + more;
    var junk := Unescape(r.Counted());
    DepthOfFirst(Hevc, zeros, [h0, h1], data, r);
    hide Escape, Rbsp, EncodeHevc, BitDepth, HevcDepth;
    RbspLayout(data, junk);
    var b := BitsOf(Rbsp(data) + junk);
    AtSplit(b, 0, EncodeHevc(s), more);
    HevcDepthOfEncoded(b, s);
  }
}
