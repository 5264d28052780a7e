/** The H.264 and H.265 sequence parameter set walks of src/hwdecode/hw_decode.c, and the
    syntax of section 7.3.2.1.1 of H.264 and sections 7.3.2.2 and 7.3.3 of H.265 they read. */
module Sps {
  import opened Common
  import opened Bits

  const UE_MAX: nat := 0xFFFF_FFFE

  /** Above this the sum `8 + (int)bit_depth_luma_minus8` overflows an int. */
  const DEPTH_MAX: nat := 0x7FFF_FFF7

  // ---------------------------------------------------------------- H.264

  /** seq_parameter_set_data() up to bit_depth_luma_minus8. */
  datatype H264Sps = H264Sps(
    profileIdc: nat, constraintFlags: nat, levelIdc: nat, spsId: nat,
    chromaFormatIdc: nat, separateColourPlane: bit, bitDepthLumaMinus8: nat)
  {
    ghost predicate Valid() {
      && profileIdc < 256 && constraintFlags < 256 && levelIdc < 256
      && spsId <= UE_MAX && chromaFormatIdc <= UE_MAX && bitDepthLumaMinus8 <= DEPTH_MAX
    }
  }

  /** The profiles that section 7.3.2.1.1 gives chroma and bit-depth fields, in its order. */
  predicate HasDepthFields(profileIdc: nat) {
    profileIdc in {100, 110, 122, 244, 44, 83, 86, 118, 128, 138, 139, 134, 135}
  }

  /** Profiles for which the walk goes on to the depth. */
  predicate ReadsDepth(profileIdc: nat) {
    profileIdc in {44, 83, 86, 100, 110, 118, 122, 128, 134, 138, 139, 244}
  }

  function H264DepthFields(s: H264Sps): seq<bit> {
    Ue(s.chromaFormatIdc)
    + (if s.chromaFormatIdc == 3 then [s.separateColourPlane] else [])
    + Ue(s.bitDepthLumaMinus8)
  }

  function EncodeH264(s: H264Sps): seq<bit> {
    U(8, s.profileIdc) + (U(8, s.constraintFlags) + (U(8, s.levelIdc) + (Ue(s.spsId)
    + (if HasDepthFields(s.profileIdc) then H264DepthFields(s) else []))))
  }

  /** zc_sps_h264_bit_depth on the bits of the payload. */
  function H264Depth(b: seq<bit>): int {
    var (profile, p0) := ReadBits(b, 0, 8);
    var (_, p1) := ReadBits(b, p0, 8);
    var (_, p2) := ReadBits(b, p1, 8);
    var (_, p3) := ReadUe(b, p2);
    if !ReadsDepth(profile) then 8 else H264DepthAt(b, p3)
  }

  function H264DepthAt(b: seq<bit>, p: nat): int
    requires p <= |b|
  {
    var (chroma, p0) := ReadUe(b, p);
    var p1 := if chroma == 3 then ReadBits(b, p0, 1).1 else p0;
    8 + Int32(ReadUe(b, p1).0)
  }

  method SpsH264BitDepth(rbsp: seq<byte>) returns (depth: int)
    ensures depth == H264Depth(BitsOf(rbsp))
  {
    var br := new BitReader(rbsp);
    var profile := br.Read(8);
    var _ := br.Read(8);
    var _ := br.Read(8);
    var _ := br.ReadExpGolomb();
    if !ReadsDepth(profile) {
      return 8;
    }
    var chroma := br.ReadExpGolomb();
    if chroma == 3 {
      var _ := br.Read(1);
    }
    var minus8 := br.ReadExpGolomb();
    return 8 + Int32(minus8);
  }

  lemma H264DepthAtFields(b: seq<bit>, p: nat, s: H264Sps)
    requires s.Valid() && At(b, p, H264DepthFields(s))
    ensures H264DepthAt(b, p) == 8 + s.bitDepthLumaMinus8
  {
    hide Ue, ReadUe, Value, ReadBits;
    var plane := if s.chromaFormatIdc == 3 then [s.separateColourPlane] else [];
    AtSplit(b, p, Ue(s.chromaFormatIdc) + plane, Ue(s.bitDepthLumaMinus8));
    AtSplit(b, p, Ue(s.chromaFormatIdc), plane);
    ReadUeAt(b, p, s.chromaFormatIdc);
    var q := p + |Ue(s.chromaFormatIdc)|;
    if s.chromaFormatIdc == 3 {
      ReadOne(b, q);
    }
    ReadUeAt(b, q + |plane|, s.bitDepthLumaMinus8);
  }

  /** The walk returns the coded luma depth of every parameter set whose profile it lists, and 8
      for every other profile, whatever follows the fields. */
  lemma H264DepthOfEncoded(b: seq<bit>, s: H264Sps)
    requires s.Valid() && At(b, 0, EncodeH264(s))
    ensures H264Depth(b) == if ReadsDepth(s.profileIdc) then 8 + s.bitDepthLumaMinus8 else 8
  {
    hide Ue, U, ReadUe, Value, ReadBits, H264DepthFields, H264DepthAt;
    assert Pow2(8) == 256;
    var depth := if HasDepthFields(s.profileIdc) then H264DepthFields(s) else [];
    var f3 := Ue(s.spsId) + depth;
    var f2 := U(8, s.levelIdc) + f3;
    AtSplit(b, 0, U(8, s.profileIdc), U(8, s.constraintFlags) + f2);
    AtSplit(b, 8, U(8, s.constraintFlags), f2);
    AtSplit(b, 16, U(8, s.levelIdc), f3);
    AtSplit(b, 24, Ue(s.spsId), depth);
    ReadU(b, 0, 8, s.profileIdc);
    ReadU(b, 8, 8, s.constraintFlags);
    ReadU(b, 16, 8, s.levelIdc);
    ReadUeAt(b, 24, s.spsId);
    if ReadsDepth(s.profileIdc) {
      H264DepthAtFields(b, 24 + |Ue(s.spsId)|, s);
    }
  }

  /** The depth a parameter set declares: the coded one, or 8 where the field is inferred. */
  function H264DeclaredDepth(s: H264Sps): int {
    if HasDepthFields(s.profileIdc) then 8 + s.bitDepthLumaMinus8 else 8
  }

  /** The walk reports the declared depth except for MFC Depth High (profile 135) above 8 bits. */
  lemma H264DepthExact(b: seq<bit>, s: H264Sps)
    requires s.Valid() && At(b, 0, EncodeH264(s))
    ensures H264Depth(b) == H264DeclaredDepth(s)
            <==> !(s.profileIdc == 135 && s.bitDepthLumaMinus8 > 0)
  {
    H264DepthOfEncoded(b, s);
  }

  // ---------------------------------------------------------------- H.265

  /** One sub-layer of profile_tier_level(): 88 profile bits and 8 level bits, each optional. */
  datatype SubLayer = SubLayer(profile: Option<seq<bit>>, level: Option<seq<bit>>) {
    ghost predicate Valid() {
      && (profile.Some? ==> |profile.value| == 88)
      && (level.Some? ==> |level.value| == 8)
    }
  }

  datatype Window = Window(left: nat, right: nat, top: nat, bottom: nat)

  /** seq_parameter_set_rbsp() up to bit_depth_luma_minus8. */
  datatype HevcSps = HevcSps(
    vpsId: nat, temporalIdNesting: bit, generalProfile: seq<bit>, generalLevel: seq<bit>,
    subLayers: seq<SubLayer>, spsId: nat, chromaFormatIdc: nat, separateColourPlane: bit,
    width: nat, height: nat, conformanceWindow: Option<Window>, bitDepthLumaMinus8: nat)
  {
    ghost predicate Valid() {
      && vpsId < 16 && |generalProfile| == 88 && |generalLevel| == 8
      && |subLayers| <= 6 && (forall l :: l in subLayers ==> l.Valid())
      && spsId <= UE_MAX && chromaFormatIdc <= UE_MAX && width <= UE_MAX && height <= UE_MAX
      && bitDepthLumaMinus8 <= DEPTH_MAX
      && (conformanceWindow.Some? ==>
            var w := conformanceWindow.value;
            w.left <= UE_MAX && w.right <= UE_MAX && w.top <= UE_MAX && w.bottom <= UE_MAX)
    }
  }

  function SubLayerFlags(ls: seq<SubLayer>): (r: seq<bit>)
    ensures |r| == 2 * |ls|
  {
    if ls == [] then []
    else [if ls[0].profile.Some? then 1 else 0, if ls[0].level.Some? then 1 else 0]
         + SubLayerFlags(ls[1..])
  }

  function SubLayerData(ls: seq<SubLayer>): seq<bit> {
    if ls == [] then []
    else (if ls[0].profile.Some? then ls[0].profile.value else [])
         + (if ls[0].level.Some? then ls[0].level.value else [])
         + SubLayerData(ls[1..])
  }

  /** The sub-layer part of profile_tier_level(1, |ls|): all presence flags, alignment to eight
      pairs, then the data of each sub-layer. */
  function SubLayers(ls: seq<SubLayer>): seq<bit>
    requires |ls| <= 8
  {
    SubLayerFlags(ls) + (if ls == [] then [] else ZeroBits(2 * (8 - |ls|))) + SubLayerData(ls)
  }

  function WindowBits(w: Option<Window>): seq<bit> {
    match w
    case None => [0]
    case Some(v) => [1] + (Ue(v.left) + (Ue(v.right) + (Ue(v.top) + Ue(v.bottom))))
  }

  /** Everything after profile_tier_level(). */
  function HevcTail(s: HevcSps): seq<bit> {
    Ue(s.spsId) + (Ue(s.chromaFormatIdc)
    + ((if s.chromaFormatIdc == 3 then [s.separateColourPlane] else [])
    + (Ue(s.width) + (Ue(s.height) + (WindowBits(s.conformanceWindow)
    + Ue(s.bitDepthLumaMinus8))))))
  }

  /** sps_video_parameter_set_id up to general_level_idc: 104 bits. */
  function HevcHead(s: HevcSps): (r: seq<bit>)
    ensures |s.generalProfile| == 88 && |s.generalLevel| == 8 ==> |r| == 104
  {
    U(4, s.vpsId) + (U(3, |s.subLayers|)
    + ([s.temporalIdNesting] + s.generalProfile + s.generalLevel))
  }

  function EncodeHevc(s: HevcSps): seq<bit>
    requires |s.subLayers| <= 8
  {
    HevcHead(s) + (SubLayers(s.subLayers) + HevcTail(s))
  }

  function Skip(b: seq<bit>, p: nat, n: nat): nat
    requires p <= |b|
    ensures Skip(b, p, n) <= |b|
    ensures p + n <= |b| ==> Skip(b, p, n) == p + n
  {
    ReadBits(b, p, n).1
  }

  /** The fields of one profile: space, tier, idc, compatibility, four flags and 44 bits. */
  function SkipProfile(b: seq<bit>, p: nat): (r: nat)
    requires p <= |b|
    ensures r <= |b|
    ensures p + 88 <= |b| ==> r == p + 88
  {
    var p0 := Skip(b, Skip(b, Skip(b, Skip(b, p, 2), 1), 5), 32);
    Skip(b, Skip(b, Skip(b, Skip(b, Skip(b, p0, 1), 1), 1), 1), 44)
  }

  /** The sub-layer loop as the walk runs it: per sub-layer two reserved bits, two flags, data. */
  function SkipSubLayers(b: seq<bit>, p: nat, m: nat): (r: nat)
    requires p <= |b|
    ensures r <= |b|
    decreases m, p
  {
    if m == 0 then p else
      var (profilePresent, p0) := ReadBits(b, Skip(b, p, 2), 1);
      var (levelPresent, p1) := ReadBits(b, p0, 1);
      var p2 := if profilePresent != 0 then SkipProfile(b, p1) else p1;
      SkipSubLayers(b, if levelPresent != 0 then Skip(b, p2, 8) else p2, m - 1)
  }

  function SkipUe(b: seq<bit>, p: nat): (r: nat)
    requires p <= |b|
    ensures r <= |b|
  {
    ReadUe(b, p).1
  }

  /** zc_sps_hevc_bit_depth on the bits of the payload. */
  function HevcDepth(b: seq<bit>): int {
    var p0 := Skip(b, 0, 4);
    var (m, p1) := ReadBits(b, p0, 3);
    var p2 := Skip(b, SkipProfile(b, Skip(b, p1, 1)), 8);
    HevcDepthAt(b, SkipSubLayers(b, p2, m))
  }

  function HevcDepthAt(b: seq<bit>, p: nat): int
    requires p <= |b|
  {
    var (chroma, p1) := ReadUe(b, SkipUe(b, p));
    var p2 := if chroma == 3 then Skip(b, p1, 1) else p1;
    HevcWindowDepthAt(b, SkipUe(b, SkipUe(b, p2)))
  }

  /** From conformance_window_flag on. */
  function HevcWindowDepthAt(b: seq<bit>, p: nat): int
    requires p <= |b|
  {
    var (window, p3) := ReadBits(b, p, 1);
    var p4 := if window != 0 then SkipUe(b, SkipUe(b, SkipUe(b, SkipUe(b, p3)))) else p3;
    8 + Int32(ReadUe(b, p4).0)
  }

  method SkipProfileFields(br: BitReader)
    requires br.Valid()
    modifies br
    ensures br.Valid() && br.pos == SkipProfile(BitsOf(br.data), old(br.pos))
  {
    var _ := br.Read(2);
    var _ := br.Read(1);
    var _ := br.Read(5);
    var _ := br.Read(32);
    var _ := br.Read(1);
    var _ := br.Read(1);
    var _ := br.Read(1);
    var _ := br.Read(1);
    var _ := br.Read(44);
  }

  method SpsHevcBitDepth(rbsp: seq<byte>) returns (depth: int)
    ensures depth == HevcDepth(BitsOf(rbsp))
  {
    ghost var b := BitsOf(rbsp);
    var br := new BitReader(rbsp);
    var _ := br.Read(4);
    var m := br.Read(3);
    var _ := br.Read(1);
    SkipProfileFields(br);
    var _ := br.Read(8);
    ghost var start: nat := br.pos;
    var i := 0;
    while i < m
      invariant i <= m && br.Valid() && br.data == rbsp
      invariant SkipSubLayers(b, start, m) == SkipSubLayers(b, br.pos, m - i)
    {
      var _ := br.Read(2);
      var profilePresent := br.Read(1);
      var levelPresent := br.Read(1);
      if profilePresent != 0 {
        SkipProfileFields(br);
      }
      if levelPresent != 0 {
        var _ := br.Read(8);
      }
      i := i + 1;
    }
    depth := HevcTailBitDepth(br);
  }

  method HevcTailBitDepth(br: BitReader) returns (depth: int)
    requires br.Valid()
    modifies br
    ensures br.Valid() && depth == HevcDepthAt(BitsOf(br.data), old(br.pos))
  {
    var _ := br.ReadExpGolomb();
    var chroma := br.ReadExpGolomb();
    if chroma == 3 {
      var _ := br.Read(1);
    }
    var _ := br.ReadExpGolomb();
    var _ := br.ReadExpGolomb();
    var window := br.Read(1);
    if window != 0 {
      var _ := br.ReadExpGolomb();
      var _ := br.ReadExpGolomb();
      var _ := br.ReadExpGolomb();
      var _ := br.ReadExpGolomb();
    }
    var minus8 := br.ReadExpGolomb();
    return 8 + Int32(minus8);
  }

  lemma WindowAt(b: seq<bit>, p: nat, w: Window)
    requires w.left <= UE_MAX && w.right <= UE_MAX && w.top <= UE_MAX && w.bottom <= UE_MAX
    requires At(b, p, Ue(w.left) + (Ue(w.right) + (Ue(w.top) + Ue(w.bottom))))
    ensures SkipUe(b, SkipUe(b, SkipUe(b, SkipUe(b, p))))
            == p + |Ue(w.left) + (Ue(w.right) + (Ue(w.top) + Ue(w.bottom)))|
  {
    hide Ue, ReadUe, At;
    AtSplit(b, p, Ue(w.left), Ue(w.right) + (Ue(w.top) + Ue(w.bottom)));
    var p1 := p + |Ue(w.left)|;
    AtSplit(b, p1, Ue(w.right), Ue(w.top) + Ue(w.bottom));
    var p2 := p1 + |Ue(w.right)|;
    AtSplit(b, p2, Ue(w.top), Ue(w.bottom));
    ReadUeAt(b, p, w.left);
    ReadUeAt(b, p1, w.right);
    ReadUeAt(b, p2, w.top);
    ReadUeAt(b, p2 + |Ue(w.top)|, w.bottom);
  }

  lemma HevcWindowDepth(b: seq<bit>, p: nat, s: HevcSps)
    requires s.Valid() && At(b, p, WindowBits(s.conformanceWindow) + Ue(s.bitDepthLumaMinus8))
    ensures p <= |b| && HevcWindowDepthAt(b, p) == 8 + s.bitDepthLumaMinus8
  {
    hide Ue, ReadUe, Value, ReadBits, At;
    var window := WindowBits(s.conformanceWindow);
    AtSplit(b, p, window, Ue(s.bitDepthLumaMinus8));
    AtHead(b, p, window);
    ReadOne(b, p);
    if s.conformanceWindow.Some? {
      var v := s.conformanceWindow.value;
      AtSplit(b, p, [1], Ue(v.left) + (Ue(v.right) + (Ue(v.top) + Ue(v.bottom))));
      WindowAt(b, p + 1, v);
    }
    ReadUeAt(b, p + |window|, s.bitDepthLumaMinus8);
  }

  /** From the parameter set identifier on, the walk follows section 7.3.2.2 of H.265. */
  lemma HevcTailDepth(b: seq<bit>, p: nat, s: HevcSps)
    requires s.Valid() && At(b, p, HevcTail(s))
    ensures HevcDepthAt(b, p) == 8 + s.bitDepthLumaMinus8
  {
    hide Ue, ReadUe, Value, ReadBits, At, WindowBits, HevcWindowDepthAt;
    var f5 := WindowBits(s.conformanceWindow) + Ue(s.bitDepthLumaMinus8);
    var f4 := Ue(s.height) + f5;
    var f3 := Ue(s.width) + f4;
    var plane := if s.chromaFormatIdc == 3 then [s.separateColourPlane] else [];
    AtSplit(b, p, Ue(s.spsId), Ue(s.chromaFormatIdc) + (plane + f3));
    var p1 := p + |Ue(s.spsId)|;
    AtSplit(b, p1, Ue(s.chromaFormatIdc), plane + f3);
    var p2 := p1 + |Ue(s.chromaFormatIdc)|;
    AtSplit(b, p2, plane, f3);
    var p3 := p2 + |plane|;
    AtSplit(b, p3, Ue(s.width), f4);
    var p4 := p3 + |Ue(s.width)|;
    AtSplit(b, p4, Ue(s.height), f5);
    ReadUeAt(b, p, s.spsId);
    ReadUeAt(b, p1, s.chromaFormatIdc);
    ReadUeAt(b, p3, s.width);
    ReadUeAt(b, p4, s.height);
    HevcWindowDepth(b, p4 + |Ue(s.height)|, s);
  }

  /** Up to general_level_idc the walk is exact and learns the number of sub-layers. */
  lemma HevcHeadAt(b: seq<bit>, s: HevcSps)
    requires s.Valid() && At(b, 0, HevcHead(s))
    ensures 104 <= |b|
    ensures HevcDepth(b) == HevcDepthAt(b, SkipSubLayers(b, 104, |s.subLayers|))
  {
    assert Pow2(4) == 16 && Pow2(3) == 8;
    var rest := [s.temporalIdNesting] + s.generalProfile + s.generalLevel;
    AtSplit(b, 0, U(4, s.vpsId), U(3, |s.subLayers|) + rest);
    AtSplit(b, 4, U(3, |s.subLayers|), rest);
    ReadU(b, 4, 3, |s.subLayers|);
  }

  /** The walk returns the coded luma depth of every parameter set without sub-layers. */
  lemma HevcDepthOfEncoded(b: seq<bit>, s: HevcSps)
    requires s.Valid() && s.subLayers == [] && At(b, 0, EncodeHevc(s))
    ensures HevcDepth(b) == 8 + s.bitDepthLumaMinus8
  {
    hide Ue, U, ReadUe, Value, ReadBits, HevcDepthAt, HevcHead, HevcTail, HevcDepth;
    AtSplit(b, 0, HevcHead(s), SubLayers([]) + HevcTail(s));
    HevcHeadAt(b, s);
    assert SubLayers([]) + HevcTail(s) == HevcTail(s);
    HevcTailDepth(b, 104, s);
  }

  // ---------------------------------------------------------------- sub-layers

  ghost predicate Ones(b: seq<bit>, from: nat, to: nat) {
    to <= |b| && forall i :: from <= i < to ==> b[i] == 1
  }

  /** Reading the tail inside a run of ones finds every field 0. */
  lemma DepthInsideOnes(b: seq<bit>, p: nat)
    requires Ones(b, p, p + 10)
    ensures HevcDepthAt(b, p) == 8
  {
    ReadUeOne(b, p);
    DepthAfterId(b, p);
  }

  lemma DepthAfterId(b: seq<bit>, p: nat)
    requires p < |b| && Ones(b, SkipUe(b, p), SkipUe(b, p) + 9)
    ensures HevcDepthAt(b, p) == 8
  {
    var q := SkipUe(b, p);
    ReadUeOne(b, q);
    ReadUeOne(b, q + 1);
    ReadUeOne(b, q + 2);
    ReadOne(b, q + 3);
    ReadUeOne(b, q + 4);
    ReadUeOne(b, q + 5);
    ReadUeOne(b, q + 6);
    ReadUeOne(b, q + 7);
    ReadUeOne(b, q + 8);
  }

  lemma {:induction false} NoFlagsSkipFour(b: seq<bit>, p: nat, m: nat)
    requires p + 4 * m <= |b|
    requires forall i :: 0 <= i < m ==> b[p + 4 * i + 2] == 0 && b[p + 4 * i + 3] == 0
    ensures SkipSubLayers(b, p, m) == p + 4 * m
    decreases m
  {
    hide Value, ReadBits, SkipProfile;
    if m > 0 {
      ReadOne(b, p + 2);
      ReadOne(b, p + 3);
      assert b[p + 4 * 0 + 2] == 0 && b[p + 4 * 0 + 3] == 0;
      forall i | 0 <= i < m - 1 ensures b[p + 4 + 4 * i + 2] == 0 && b[p + 4 + 4 * i + 3] == 0 {
        assert b[p + 4 * (i + 1) + 2] == 0 && b[p + 4 * (i + 1) + 3] == 0;
      }
      NoFlagsSkipFour(b, p + 4, m - 1);
    }
  }

  function OneBits(n: nat): (r: seq<bit>)
    ensures |r| == n
  {
    seq(n, _ => 1)
  }

  /** m sub-layers of which every second one, from the first, carries a profile of one bits. */
  function EvenProfiles(m: nat): (r: seq<SubLayer>)
    ensures |r| == m
  {
    seq(m, i => SubLayer(if i % 2 == 0 then Some(OneBits(88)) else None, None))
  }

  lemma EvenProfileBits(m: nat, i: nat)
    requires 1 <= m <= 6
    ensures var bits := SubLayers(EvenProfiles(m));
            && |bits| == 16 + 88 * ((m + 1) / 2)
            && (i < |bits| ==> bits[i] == if i >= 16 || (i % 4 == 0 && i < 2 * m) then 1 else 0)
  {
    var ls := EvenProfiles(m);
    assert ls[0..] == ls;
    EvenData(m, 0);
    if i < 2 * m {
      EvenFlags(m, 0, i);
    }
  }

  lemma {:induction false} EvenFlags(m: nat, k: nat, i: nat)
    requires k <= m && i < 2 * (m - k)
    ensures SubLayerFlags(EvenProfiles(m)[k..])[i] == if (2 * k + i) % 4 == 0 then 1 else 0
    decreases m - k
  {
    var ls := EvenProfiles(m)[k..];
    assert ls[1..] == EvenProfiles(m)[k + 1..];
    assert ls[0] == EvenProfiles(m)[k];
    if i >= 2 {
      EvenFlags(m, k + 1, i - 2);
    }
  }

  lemma {:induction false} EvenData(m: nat, k: nat)
    requires k <= m
    ensures SubLayerData(EvenProfiles(m)[k..]) == OneBits(88 * ((m + 1) / 2 - (k + 1) / 2))
    decreases m - k
  {
    var ls := EvenProfiles(m)[k..];
    if k < m {
      EvenData(m, k + 1);
      assert ls[1..] == EvenProfiles(m)[k + 1..];
      assert ls[0] == EvenProfiles(m)[k];
    }
  }

  /** With m sub-layers whose flags the walk finds clear, it lands in the run of ones. */
  lemma LandsInOnes(b: seq<bit>, m: nat)
    requires 1 <= m <= 6
    requires Ones(b, 120, 120 + 88 * ((m + 1) / 2))
    requires forall i :: 104 <= i < 120 && i % 4 != 0 ==> b[i] == 0
    requires forall i :: 104 + 4 * m <= i < 120 ==> b[i] == 0
    ensures HevcDepthAt(b, SkipSubLayers(b, 104, m)) == 8
  {
    hide HevcDepthAt, ReadBits, Value, SkipSubLayers, ReadUeFrom;
    var first := if m < 4 then m else 4;
    NoFlagsSkipFour(b, 104, first);
    SkipSubLayersSplit(b, 104, first, m - first);
    if m < 4 {
      ReadUeRun(b, 104 + 4 * m, 0, 16 - 4 * m);
      DepthAfterId(b, 104 + 4 * m);
    } else {
      AllFlagsSkip(b, 120, m - 4);
      DepthInsideOnes(b, 120 + 100 * (m - 4));
    }
  }

  lemma {:induction false} SkipSubLayersSplit(b: seq<bit>, p: nat, m: nat, n: nat)
    requires p <= |b|
    ensures SkipSubLayers(b, p, m + n) == SkipSubLayers(b, SkipSubLayers(b, p, m), n)
    decreases m
  {
    hide Value, ReadBits, SkipProfile;
    if m > 0 {
      var (profilePresent, p0) := ReadBits(b, Skip(b, p, 2), 1);
      var (levelPresent, p1) := ReadBits(b, p0, 1);
      var p2 := if profilePresent != 0 then SkipProfile(b, p1) else p1;
      SkipSubLayersSplit(b, if levelPresent != 0 then Skip(b, p2, 8) else p2, m - 1, n);
    }
  }

  lemma {:induction false} AllFlagsSkip(b: seq<bit>, p: nat, m: nat)
    requires Ones(b, p, p + 100 * m)
    ensures SkipSubLayers(b, p, m) == p + 100 * m
    decreases m
  {
    hide Value, ReadBits, SkipProfile;
    if m > 0 {
      ReadOne(b, p + 2);
      ReadOne(b, p + 3);
      AllFlagsSkip(b, p + 100, m - 1);
    }
  }

  /** Such a parameter set is read as 8 bits whatever depth it codes. */
  lemma SubLayersMisread(b: seq<bit>, s: HevcSps)
    requires s.Valid() && |s.subLayers| >= 1 && s.subLayers == EvenProfiles(|s.subLayers|)
    requires At(b, 0, EncodeHevc(s))
    ensures HevcDepth(b) == 8
  {
    hide Ue, U, ReadUe, Value, ReadBits, HevcDepthAt, HevcHead, HevcTail, HevcDepth, SubLayers, SkipSubLayers;
    var m := |s.subLayers|;
    var subs := SubLayers(s.subLayers);
    AtSplit(b, 0, HevcHead(s), subs + HevcTail(s));
    HevcHeadAt(b, s);
    AtSplit(b, 104, subs, HevcTail(s));
    forall i | 104 <= i < 104 + |subs|
      ensures b[i] == if i >= 120 || (i % 4 == 0 && i < 104 + 2 * m) then 1 else 0
    {
      EvenProfileBits(m, i - 104);
      assert b[i] == b[104..104 + |subs|][i - 104];
    }
    EvenProfileBits(m, 0);
    LandsInOnes(b, m);
  }

  ghost predicate ReadExactly(m: nat) {
    forall s: HevcSps, b: seq<bit> ::
      s.Valid() && |s.subLayers| == m && At(b, 0, EncodeHevc(s)) ==>
        HevcDepth(b) == 8 + s.bitDepthLumaMinus8
  }

  /** For each number of sub-layers the standard allows, the walk is right on all parameter sets
      if and only if that number is 0. */
  lemma HevcDepthExact(m: nat)
    requires m <= 6
    ensures ReadExactly(m) <==> m == 0
  {
    hide HevcDepth, EncodeHevc;
    if m == 0 {
      forall s: HevcSps, b: seq<bit>
        | s.Valid() && |s.subLayers| == m && At(b, 0, EncodeHevc(s))
        ensures HevcDepth(b) == 8 + s.bitDepthLumaMinus8
      {
        HevcDepthOfEncoded(b, s);
      }
    } else {
      var s := HevcSps(0, 0, OneBits(88), OneBits(8), EvenProfiles(m), 0, 1, 0, 0, 0, None, 2);
      var b := EncodeHevc(s);
      assert At(b, 0, b);
      SubLayersMisread(b, s);
    }
  }

  // ---------------------------------------------------------------- sub-layers without data

  /** m sub-layers with neither profile nor level. */
  function BareLayers(m: nat): (r: seq<SubLayer>)
    ensures |r| == m
  {
    seq(m, _ => SubLayer(None, None))
  }

  lemma {:induction false} BareFrom(m: nat, k: nat)
    requires k <= m
    ensures SubLayerFlags(BareLayers(m)[k..]) == ZeroBits(2 * (m - k)) && SubLayerData(BareLayers(m)[k..]) == []
    decreases m - k
  {
    if k < m {
      var ls := BareLayers(m)[k..];
      BareFrom(m, k + 1);
      assert ls[1..] == BareLayers(m)[k + 1..] && ls[0] == SubLayer(None, None);
    }
  }

  lemma BareBits(m: nat)
    requires 1 <= m <= 6
    ensures SubLayers(BareLayers(m)) == ZeroBits(16)
  {
    BareFrom(m, 0);
    assert BareLayers(m)[0..] == BareLayers(m);
  }

  /** Where sub-layers without data leave sixteen zero bits. */
  lemma BareAt(b: seq<bit>, s: HevcSps)
    requires s.Valid() && |s.subLayers| >= 1 && s.subLayers == BareLayers(|s.subLayers|)
    requires At(b, 0, EncodeHevc(s))
    ensures 120 <= |b| && (forall i :: 104 <= i < 120 ==> b[i] == 0) && At(b, 120, HevcTail(s))
    ensures HevcDepth(b) == HevcDepthAt(b, SkipSubLayers(b, 104, |s.subLayers|))
  {
    hide HevcHead, HevcTail, HevcDepth, HevcDepthAt, SubLayers, SkipSubLayers, BareLayers;
    BareBits(|s.subLayers|);
    AtSplit(b, 0, HevcHead(s), ZeroBits(16) + HevcTail(s));
    HevcHeadAt(b, s);
    AtSplit(b, 104, ZeroBits(16), HevcTail(s));
    forall i | 104 <= i < 120 ensures b[i] == 0 {
      assert b[i] == b[104..120][i - 104];
    }
  }

  /** Four such sub-layers take the sixteen bits that the walk skips for them. */
  lemma FourBareLayers(b: seq<bit>, s: HevcSps)
    requires s.Valid() && s.subLayers == BareLayers(4) && At(b, 0, EncodeHevc(s))
    ensures HevcDepth(b) == 8 + s.bitDepthLumaMinus8
  {
    hide EncodeHevc, HevcTail, HevcDepth, HevcDepthAt, SkipSubLayers, BareLayers;
    BareAt(b, s);
    NoFlagsSkipFour(b, 104, 4);
    HevcTailDepth(b, 120, s);
  }

  /** A ten-bit parameter set with a tail of 11110011. */
  function BareSps(m: nat): HevcSps {
    HevcSps(0, 0, OneBits(88), OneBits(8), BareLayers(m), 0, 0, 0, 0, 0, None, 2)
  }

  lemma BareTail(m: nat)
    ensures HevcTail(BareSps(m)) == [1, 1, 1, 1, 0, 0, 1, 1]
  {
    assert Ue(0) == [1];
    assert Ue(2) == [0, 1, 1];
  }

  lemma DepthAfterChroma(b: seq<bit>, p: nat)
    requires p <= |b|
    requires var (chroma, q) := ReadUe(b, SkipUe(b, p)); chroma != 3 && Ones(b, q, q + 8)
    ensures HevcDepthAt(b, p) == 8
  {
    var q := ReadUe(b, SkipUe(b, p)).1;
    ReadUeOne(b, q);
    ReadUeOne(b, q + 1);
    ReadOne(b, q + 2);
    ReadUeOne(b, q + 3);
    ReadUeOne(b, q + 4);
    ReadUeOne(b, q + 5);
    ReadUeOne(b, q + 6);
    ReadUeOne(b, q + 7);
  }

  /** One turn of the sub-layer loop that finds both flags set. */
  lemma FlagsSkip(b: seq<bit>, p: nat)
    requires p + 100 <= |b| && b[p + 2] == 1 && b[p + 3] == 1
    ensures SkipSubLayers(b, p, 1) == p + 100
  {
    hide Value, ReadBits, SkipProfile;
    ReadOne(b, p + 2);
    ReadOne(b, p + 3);
  }

  /** That parameter set, followed by ones, is read as 8 bits. */
  lemma BareMisread(b: seq<bit>, m: nat)
    requires 1 <= m <= 6 && m != 4 && 340 <= |b|
    requires forall i :: 104 <= i < 120 ==> b[i] == 0
    requires At(b, 120, [1, 1, 1, 1, 0, 0, 1, 1]) && Ones(b, 128, |b|)
    ensures HevcDepthAt(b, SkipSubLayers(b, 104, m)) == 8
  {
    hide HevcDepthAt, SkipSubLayers, ReadUeFrom;
    assert b[120..128] == [1, 1, 1, 1, 0, 0, 1, 1];
    assert b[120] == b[120..128][0] && b[121] == b[120..128][1] && b[122] == b[120..128][2] && b[123] == b[120..128][3];
    var first := if m < 4 then m else 4;
    NoFlagsSkipFour(b, 104, first);
    if m < 4 {
      var p := 104 + 4 * m;
      ReadUeRun(b, p, 0, 16 - 4 * m);
      if m < 3 {
        DepthAfterId(b, p);
      } else {
        assert b[125..128] == b[120..128][5..] == Ue(2);
        ReadUeAt(b, 125, 2);
        DepthAfterChroma(b, p);
      }
    } else {
      SkipSubLayersSplit(b, 104, 4, m - 4);
      FlagsSkip(b, 120);
      if m == 6 {
        SkipSubLayersSplit(b, 120, 1, 1);
        FlagsSkip(b, 220);
      }
      DepthInsideOnes(b, 120 + 100 * (m - 4));
    }
  }

  /** The walk is right on all parameter sets with m sub-layers of which none carries data. */
  ghost predicate ReadsBare(m: nat) {
    forall s: HevcSps, b: seq<bit> ::
      s.Valid() && s.subLayers == BareLayers(m) && At(b, 0, EncodeHevc(s)) ==>
        HevcDepth(b) == 8 + s.bitDepthLumaMinus8
  }

  /** Among the parameter sets whose sub-layers carry no data, the walk is right on all with m
      sub-layers if and only if m is 0 or 4. */
  lemma BareDepthExact(m: nat)
    requires m <= 6
    ensures ReadsBare(m) <==> m == 0 || m == 4
  {
    hide HevcDepth, EncodeHevc, BareLayers;
    if m == 0 || m == 4 {
      forall s: HevcSps, b: seq<bit> | s.Valid() && s.subLayers == BareLayers(m) && At(b, 0, EncodeHevc(s))
        ensures HevcDepth(b) == 8 + s.bitDepthLumaMinus8
      {
        if m == 0 {
          HevcDepthOfEncoded(b, s);
        } else {
          FourBareLayers(b, s);
        }
      }
    } else {
      var s, b := BareWitness(m);
    }
  }

  lemma BareWitness(m: nat) returns (s: HevcSps, b: seq<bit>)
    requires 1 <= m <= 6 && m != 4
    ensures s.Valid() && s.subLayers == BareLayers(m) && At(b, 0, EncodeHevc(s))
    ensures s.bitDepthLumaMinus8 == 2 && HevcDepth(b) == 8
  {
    s := BareSps(m);
    hide EncodeHevc, HevcTail, HevcDepth, HevcDepthAt, SkipSubLayers, OneBits, BareSps;
    assert s.Valid() && s.subLayers == BareLayers(m) && s.bitDepthLumaMinus8 == 2 by { BareSpsFacts(m); }
    var x := EncodeHevc(s);
    b := x + OneBits(300);
    assert At(b, 0, x) by { assert b[0..|x|] == x; }
    BareAt(b, s);
    BareTail(m);
    BareSize(s);
    OnesBehind(x, 300);
    BareMisread(b, m);
  }

  lemma BareSpsFacts(m: nat)
    requires m <= 6
    ensures BareSps(m).Valid() && BareSps(m).subLayers == BareLayers(m) && BareSps(m).bitDepthLumaMinus8 == 2
  {
  }

  lemma BareSize(s: HevcSps)
    requires s.Valid() && 1 <= |s.subLayers| && s.subLayers == BareLayers(|s.subLayers|)
    ensures |EncodeHevc(s)| == 120 + |HevcTail(s)|
  {
    hide HevcTail;
    BareBits(|s.subLayers|);
  }

  lemma OnesBehind(x: seq<bit>, n: nat)
    ensures Ones(x + OneBits(n), |x|, |x| + n)
  {
  }
}
