/** The decoder choices of src/zc_source.cpp with every handler taken as one step: which decoder is
    installed, which backend it was asked from, and what is known about the stream. */
module Handlers {
  import opened Common
  import Bits
  import Sps
  import Nal
  import NalStream

  datatype Backend = Auto | Cuda | D3d11va | VideoToolbox | Software | Count

  /** The compile-time switches, and the output mode of the source. */
  datatype Build = Build(zeroCopy: bool, swDecode: bool, async: bool)

  /** A decoder and what it was created for. */
  datatype Dec = Dec(hw: bool, tenBit: bool, codec: Nal.Codec, width: int, height: int)

  /** What foreign code answers: the backend zc_hw_ffmpeg_detect finds, and whether creating a
      hardware and a software decoder succeeds. */
  datatype Env = Env(detect: Backend, hwOk: bool, swOk: bool)

  /** One call of decode: the decoder and the fields at that moment. */
  datatype Call = Call(dec: Dec, backend: Backend, known: bool, streamTenBit: bool, force: bool)

  datatype State = State(
    requested: Backend, backend: Backend, decoder: Option<Dec>, codec: Nal.Codec,
    known: bool, streamTenBit: bool, decoderTenBit: bool, metaW: int, metaH: int,
    force: bool, running: bool, pending: bool, wait: bool, shown: bool, calls: seq<Call>)

  function Initial(): State {
    State(Auto, Software, None, Nal.H264, false, false, false, 0, 0, false, false, false, false, false, [])
  }

  // ---------------------------------------------------------------- choosing a decoder

  function Resolve(b: Build, requested: Backend, env: Env): Backend {
    if b.zeroCopy && requested != Software && env.detect != Software then env.detect
    else if b.swDecode then Software else Count
  }

  function CreateOn(b: Build, backend: Backend, env: Env, d: Dec): Option<Dec> {
    if b.zeroCopy && backend != Software && backend != Count && env.hwOk then Some(d.(hw := true))
    else if b.swDecode && env.swOk then Some(d.(hw := false))
    else None
  }

  /** createDecoder: the decoder, and backend_ as it records it. */
  function Create(b: Build, requested: Backend, env: Env, codec: Nal.Codec, w: int, h: int, software: bool,
      tenBit: bool):
    (Option<Dec>, Backend)
  {
    var backend := Resolve(b, if software || b.async then Software else requested, env);
    (CreateOn(b, backend, env, Dec(false, tenBit, codec, w, h)), backend)
  }

  function Known(s: State): bool {
    if s.known then s.streamTenBit else false
  }

  // ---------------------------------------------------------------- handlers

  function Start(s: State, haveIp: bool): State {
    if !haveIp || s.running then s
    else s.(decoder := None, force := false, known := false, streamTenBit := false, running := true, shown := false)
  }

  function Stop(s: State): State {
    s.(running := false, pending := false, decoder := None, force := false)
  }

  function Update(s: State, backend: Backend, wait: bool, otherChanged: bool, haveIp: bool): State {
    var wanted := if backend == Cuda then Auto else backend;
    if wanted == s.requested && wait == s.wait && !otherChanged then s
    else Start(Stop(s).(requested := wanted, wait := wait), haveIp)
  }

  function ReconnectNow(s: State, stopping: bool, haveIp: bool): State {
    var t := s.(running := false);
    if stopping then t else Start(t.(pending := false), haveIp)
  }

  predicate NeedsRebuild(s: State, codec: Nal.Codec, w: int, h: int) {
    || s.decoder.None? || codec != s.codec || s.metaW != w || s.metaH != h
    || (s.force && s.backend != Software)
  }

  function RebuildForMeta(b: Build, s: State, env: Env, codec: Nal.Codec): State {
    var u := s.(pending := false, codec := codec, decoderTenBit := Known(s));
    if s.running then
      var made := Create(b, s.requested, env, codec, s.metaW, s.metaH, s.force, Known(s));
      u.(decoder := made.0, backend := made.1)
    else u.(decoder := None)
  }

  function OnMeta(b: Build, s: State, env: Env, codec: Nal.Codec, w: int, h: int): (t: State)
    ensures t.force == s.force && t.calls == s.calls && t.known == s.known && t.streamTenBit == s.streamTenBit
    ensures t.running == s.running && t.wait == s.wait && t.shown == s.shown
  {
    var t := s.(metaW := w, metaH := h);
    if NeedsRebuild(s, codec, w, h) then RebuildForMeta(b, t, env, codec) else t
  }

  /** The bit depth learned from this access unit, if it is still unknown. */
  function Sniff(s: State, data: seq<byte>): (t: State)
    ensures t == s.(known := t.known, streamTenBit := t.streamTenBit)
  {
    var depth := Nal.BitDepth(s.codec, data);
    if s.decoder.Some? && !s.known && depth >= 8 then s.(known := true, streamTenBit := depth >= 10) else s
  }

  function RebuildForDepth(b: Build, s: State, env: Env): (t: State)
    ensures t.force == s.force && t.calls == s.calls && t.known == s.known && t.streamTenBit == s.streamTenBit
  {
    if s.known && s.decoder.Some? && s.backend != Software && s.decoderTenBit != s.streamTenBit then
      var made := Create(b, s.requested, env, s.codec, s.metaW, s.metaH, false, s.streamTenBit);
      s.(pending := false, decoderTenBit := s.streamTenBit, decoder := made.0, backend := made.1)
    else s
  }

  function Decode(b: Build, s: State, got: bool): (t: State)
    ensures t == s.(pending := t.pending, calls := t.calls)
  {
    match s.decoder
    case None => s
    case Some(d) =>
      s.(calls := s.calls + [Call(d, s.backend, s.known, s.streamTenBit, s.force)],
         pending := s.pending || (got && d.hw && !b.async))
  }

  function OnVideoData(b: Build, s: State, env: Env, data: seq<byte>, key: bool, got: bool): State {
    if !s.running || (s.wait && !s.shown && !key) then s
    else
      var t := s.(shown := s.shown || (s.wait && key));
      Decode(b, RebuildForDepth(b, Sniff(t, data), env), got)
  }

  function VideoRender(b: Build, s: State, env: Env, imports: bool, w: int, h: int): (t: State)
    ensures t.calls == s.calls && t.known == s.known && t.streamTenBit == s.streamTenBit
    ensures t.running == s.running && t.wait == s.wait && t.shown == s.shown
  {
    if !s.pending then s
    else if s.decoder.Some? && imports then s.(pending := false)
    else
      var t := s.(pending := false, force := true);
      if s.force then t
      else if s.running then
        var made := Create(b, s.requested, env, s.codec, w, h, true, Known(s));
        t.(decoder := made.0, backend := made.1)
      else t.(decoder := None)
  }

  // ---------------------------------------------------------------- the object

  class Source {
    const build: Build
    var requested: Backend
    var backend: Backend
    var decoder: Option<Dec>
    var codec: Nal.Codec
    var bitDepthKnown: bool
    var streamTenBit: bool
    var decoderTenBit: bool
    var metaW: int
    var metaH: int
    var forceSoftware: bool
    var running: bool
    var hasPending: bool
    var waitIFrame: bool
    var iFrameShown: bool
    ghost var calls: seq<Call>

    ghost function Abs(): State reads this {
      State(requested, backend, decoder, codec, bitDepthKnown, streamTenBit, decoderTenBit, metaW, metaH,
            forceSoftware, running, hasPending, waitIFrame, iFrameShown, calls)
    }

    constructor (build: Build)
      ensures this.build == build && Abs() == Initial()
    {
      this.build := build;
      requested, backend, decoder, codec := Auto, Software, None, Nal.H264;
      bitDepthKnown, streamTenBit, decoderTenBit, metaW, metaH := false, false, false, 0, 0;
      forceSoftware, running, hasPending, waitIFrame, iFrameShown, calls := false, false, false, false, false, [];
    }

    method CreateDecoder(env: Env, c: Nal.Codec, w: int, h: int, software: bool,
        tenBit: bool) returns (made: Option<Dec>)
      modifies this`backend
      ensures (made, backend) == Create(build, requested, env, c, w, h, software, tenBit)
    {
      var want := if software || build.async then Software else requested;
      var chosen := Resolve(build, want, env);
      made := CreateOn(build, chosen, env, Dec(false, tenBit, c, w, h));
      backend := chosen;
    }

    method Begin(haveIp: bool)
      modifies this
      ensures Abs() == Start(old(Abs()), haveIp)
    {
      if !haveIp || running {
        return;
      }
      decoder := None;
      forceSoftware, bitDepthKnown, streamTenBit := false, false, false;
      running, iFrameShown := true, false;
    }

    method End()
      modifies this
      ensures Abs() == Stop(old(Abs()))
    {
      running, hasPending, decoder, forceSoftware := false, false, None, false;
    }

    method Configure(want: Backend, wait: bool, otherChanged: bool, haveIp: bool)
      modifies this
      ensures Abs() == Update(old(Abs()), want, wait, otherChanged, haveIp)
    {
      var wanted := if want == Cuda then Auto else want;
      if wanted == requested && wait == waitIFrame && !otherChanged {
        return;
      }
      End();
      requested, waitIFrame := wanted, wait;
      Begin(haveIp);
    }

    method Reconnect(stopping: bool, haveIp: bool)
      modifies this
      ensures Abs() == ReconnectNow(old(Abs()), stopping, haveIp)
    {
      running := false;
      if stopping {
        return;
      }
      hasPending := false;
      Begin(haveIp);
    }

    method ReplaceDecoder(env: Env, c: Nal.Codec, software: bool, tenBit: bool)
      requires software == forceSoftware && tenBit == Known(Abs())
      modifies this
      ensures Abs() == RebuildForMeta(build, old(Abs()), env, c)
    {
      hide Create, Known;
      hasPending := false;
      var made := None;
      if running {
        made := CreateDecoder(env, c, metaW, metaH, software, tenBit);
      }
      codec, decoderTenBit := c, tenBit;
      decoder := made;
    }

    method HandleMeta(env: Env, c: Nal.Codec, w: int, h: int)
      modifies this
      ensures Abs() == OnMeta(build, old(Abs()), env, c, w, h)
    {
      hide RebuildForMeta;
      var software := forceSoftware;
      var resized := decoder.Some? && (metaW != w || metaH != h);
      metaW, metaH := w, h;
      var tenBit := if bitDepthKnown then streamTenBit else false;
      if decoder.None? || c != codec || resized || (software && backend != Software) {
        ReplaceDecoder(env, c, software, tenBit);
      }
    }

    method Learn(data: seq<byte>)
      modifies this`bitDepthKnown, this`streamTenBit
      ensures Abs() == Sniff(old(Abs()), data)
    {
      hide Nal.BitDepth;
      if decoder.Some? && !bitDepthKnown {
        var depth := Nal.NalBitDepth(codec, data);
        if depth >= 8 {
          bitDepthKnown, streamTenBit := true, depth >= 10;
        }
      }
    }

    method Rebuild(env: Env)
      modifies this
      ensures Abs() == RebuildForDepth(build, old(Abs()), env)
    {
      hide Create;
      if bitDepthKnown && decoder.Some? && backend != Software && decoderTenBit != streamTenBit {
        hasPending := false;
        var made := CreateDecoder(env, codec, metaW, metaH, false, streamTenBit);
        decoderTenBit := streamTenBit;
        decoder := made;
      }
    }

    method DecodeFrame(got: bool)
      modifies this
      ensures Abs() == Decode(build, old(Abs()), got)
    {
      if decoder.Some? {
        calls := calls + [Call(decoder.value, backend, bitDepthKnown, streamTenBit, forceSoftware)];
        if got && decoder.value.hw && !build.async {
          hasPending := true;
        }
      }
    }

    method HandleVideo(env: Env, data: seq<byte>, key: bool, got: bool)
      modifies this
      ensures Abs() == OnVideoData(build, old(Abs()), env, data, key, got)
    {
      hide Sniff, RebuildForDepth, Decode;
      if !running {
        return;
      }
      if waitIFrame && !iFrameShown {
        if !key {
          return;
        }
        iFrameShown := true;
      }
      Learn(data);
      Rebuild(env);
      DecodeFrame(got);
    }

    method Render(env: Env, imports: bool, w: int, h: int)
      modifies this
      ensures Abs() == VideoRender(build, old(Abs()), env, imports, w, h)
    {
      if !hasPending {
        return;
      }
      hasPending := false;
      if decoder.Some? && imports {
        return;
      }
      var fallback := !forceSoftware;
      forceSoftware := true;
      if fallback {
        var made := None;
        if running {
          made := CreateDecoder(env, codec, w, h, true, if bitDepthKnown then streamTenBit else false);
        }
        decoder := made;
      }
    }
  }

  // ---------------------------------------------------------------- what every run keeps

  /** The decode call used a decoder of the right kind. */
  predicate CallOk(c: Call) {
    && (c.known && c.backend != Software ==> c.dec.tenBit == c.streamTenBit)
    && (c.force ==> !c.dec.hw)
  }

  predicate DecoderOk(b: Build, s: State) {
    s.decoder.Some? ==>
      var d := s.decoder.value;
      && (s.backend != Software ==> d.tenBit == s.decoderTenBit)
      && (s.backend == Software || b.async ==> !d.hw)
      && (s.force ==> s.backend == Software)
      && d.codec == s.codec
      && (d.hw ==> d.width == s.metaW && d.height == s.metaH)
  }

  predicate CallsOk(calls: seq<Call>) {
    forall i :: 0 <= i < |calls| ==> CallOk(calls[i])
  }

  predicate Inv(b: Build, s: State) {
    DecoderOk(b, s) && CallsOk(s.calls)
  }

  datatype Event =
    | Started(haveIp: bool)
    | Stopped
    | Updated(backend: Backend, wait: bool, otherChanged: bool, haveIp: bool)
    | Reconnected(stopping: bool, haveIp: bool)
    | Meta(env: Env, codec: Nal.Codec, w: int, h: int)
    | Video(env: Env, data: seq<byte>, key: bool, got: bool)
    | Rendered(env: Env, imports: bool, w: int, h: int)

  function Step(b: Build, s: State, e: Event): State {
    match e
    case Started(haveIp) => Start(s, haveIp)
    case Stopped => Stop(s)
    case Updated(backend, wait, other, haveIp) => Update(s, backend, wait, other, haveIp)
    case Reconnected(stopping, haveIp) => ReconnectNow(s, stopping, haveIp)
    case Meta(env, codec, w, h) => OnMeta(b, s, env, codec, w, h)
    case Video(env, data, key, got) => OnVideoData(b, s, env, data, key, got)
    case Rendered(env, imports, w, h) => VideoRender(b, s, env, imports, w, h)
  }

  lemma CreateFacts(b: Build, requested: Backend, env: Env, codec: Nal.Codec, w: int, h: int, software: bool,
      tenBit: bool)
    ensures var made := Create(b, requested, env, codec, w, h, software, tenBit);
            made.0.Some? ==>
              && made.0.value.tenBit == tenBit && made.0.value.codec == codec
              && made.0.value.width == w && made.0.value.height == h
              && (software || b.async || made.1 == Software ==> !made.0.value.hw)
              && (software ==> made.1 == Software)
  {
  }

  lemma MetaKeeps(b: Build, s: State, env: Env, codec: Nal.Codec, w: int, h: int)
    requires DecoderOk(b, s)
    ensures DecoderOk(b, OnMeta(b, s, env, codec, w, h))
  {
    var t := s.(metaW := w, metaH := h);
    CreateFacts(b, s.requested, env, codec, w, h, s.force, Known(s));
    hide Create;
    assert DecoderOk(b, RebuildForMeta(b, t, env, codec));
    hide RebuildForMeta;
  }

  lemma RenderKeeps(b: Build, s: State, env: Env, imports: bool, w: int, h: int)
    requires DecoderOk(b, s)
    ensures DecoderOk(b, VideoRender(b, s, env, imports, w, h))
    ensures s.force ==> VideoRender(b, s, env, imports, w, h).force
  {
    CreateFacts(b, s.requested, env, s.codec, w, h, true, Known(s));
    hide Create;
  }

  lemma RebuildKeeps(b: Build, s: State, env: Env)
    requires DecoderOk(b, s)
    ensures var u := RebuildForDepth(b, s, env);
            && DecoderOk(b, u)
            && (u.known && u.decoder.Some? && u.backend != Software ==> u.decoder.value.tenBit == u.streamTenBit)
  {
    CreateFacts(b, s.requested, env, s.codec, s.metaW, s.metaH, false, s.streamTenBit);
    hide Create;
  }

  /** At most one call more than before, of the right kind, with the fields of the state it left. */
  predicate AtMostOne(before: seq<Call>, t: State) {
    var n := |before|;
    t.calls == before ||
    (|t.calls| == n + 1 && t.calls[..n] == before && CallOk(t.calls[n]) && var c := t.calls[n];
     c.force == t.force && c.known == t.known && c.streamTenBit == t.streamTenBit)
  }

  lemma DecodeCalls(b: Build, s: State, got: bool)
    requires DecoderOk(b, s)
    requires s.known && s.decoder.Some? && s.backend != Software ==> s.decoder.value.tenBit == s.streamTenBit
    ensures var t := Decode(b, s, got);
            && DecoderOk(b, t)
            && AtMostOne(s.calls, t)
  {
  }

  lemma SniffKeeps(b: Build, s: State, data: seq<byte>)
    requires DecoderOk(b, s)
    ensures var t := Sniff(s, data);
            DecoderOk(b, t) && (s.known ==> t.known && t.streamTenBit == s.streamTenBit)
  {
    hide Nal.BitDepth;
  }

  lemma PassedKeeps(b: Build, s: State, env: Env, data: seq<byte>, got: bool)
    requires DecoderOk(b, s)
    ensures var t := Decode(b, RebuildForDepth(b, Sniff(s, data), env), got);
            && DecoderOk(b, t) && t.force == s.force
            && (s.known ==> t.known && t.streamTenBit == s.streamTenBit)
            && AtMostOne(s.calls, t)
  {
    hide DecoderOk, AtMostOne, Sniff, RebuildForDepth, Decode;
    SniffKeeps(b, s, data);
    var t := Sniff(s, data);
    RebuildKeeps(b, t, env);
    DecodeCalls(b, RebuildForDepth(b, t, env), got);
  }

  /** An access unit is decoded at most once, by a decoder of the right kind. */
  lemma VideoKeeps(b: Build, s: State, env: Env, data: seq<byte>, key: bool, got: bool)
    requires DecoderOk(b, s)
    ensures var t := OnVideoData(b, s, env, data, key, got);
            && DecoderOk(b, t) && t.force == s.force
            && (s.known ==> t.known && t.streamTenBit == s.streamTenBit)
            && AtMostOne(s.calls, t)
  {
    PassedKeeps(b, s.(shown := s.shown || (s.wait && key)), env, data, got);
    hide Sniff, RebuildForDepth, Decode;
  }

  predicate Restarts(e: Event) {
    e.Started? || e.Stopped? || e.Updated? || e.Reconnected?
  }

  lemma RestartKeeps(b: Build, s: State, e: Event)
    requires Inv(b, s) && Restarts(e)
    ensures Inv(b, Step(b, s, e))
  {
    hide CallsOk;
  }

  lemma OneMoreCall(before: seq<Call>, t: State)
    requires CallsOk(before) && AtMostOne(before, t)
    ensures CallsOk(t.calls)
  {
    hide CallOk;
    forall i | 0 <= i < |t.calls| ensures CallOk(t.calls[i]) {
      assert i < |before| ==> t.calls[..|before|][i] == before[i];
    }
  }

  lemma StepKeeps(b: Build, s: State, e: Event)
    requires Inv(b, s)
    ensures Inv(b, Step(b, s, e))
  {
    if Restarts(e) {
      RestartKeeps(b, s, e);
    } else {
      hide DecoderOk, CallsOk, AtMostOne, OnMeta, OnVideoData, VideoRender;
      match e {
        case Meta(env, codec, w, h) => MetaKeeps(b, s, env, codec, w, h);
        case Video(env, data, key, got) =>
          VideoKeeps(b, s, env, data, key, got);
          OneMoreCall(s.calls, Step(b, s, e));
        case Rendered(env, imports, w, h) => RenderKeeps(b, s, env, imports, w, h);
      }
    }
  }

  function Run(b: Build, s: State, events: seq<Event>): State
    decreases |events|
  {
    if events == [] then s else Run(b, Step(b, s, events[0]), events[1..])
  }

  lemma {:induction false} RunKeeps(b: Build, s: State, events: seq<Event>)
    requires Inv(b, s)
    ensures Inv(b, Run(b, s, events))
    decreases |events|
  {
    if events != [] {
      StepKeeps(b, s, events[0]);
      RunKeeps(b, Step(b, s, events[0]), events[1..]);
    }
  }

  /** Whatever the camera sends and foreign code answers: every decode call with a known bit depth
      and a backend_ other than software used a decoder created for the stream's depth. */
  lemma DecodesAtStreamDepth(b: Build, events: seq<Event>, i: nat)
    requires i < |Run(b, Initial(), events).calls|
    ensures var c := Run(b, Initial(), events).calls[i];
            c.known && c.backend != Software ==> c.dec.tenBit == c.streamTenBit
  {
    hide Run;
    RunKeeps(b, Initial(), events);
    assert CallOk(Run(b, Initial(), events).calls[i]);
  }

  /** The installed decoder always fits the codec and, in hardware, the coded size last announced;
      the async source never has a hardware decoder. */
  lemma InstalledDecoderFits(b: Build, events: seq<Event>)
    requires Run(b, Initial(), events).decoder.Some?
    ensures var s := Run(b, Initial(), events); var d := s.decoder.value;
            && d.codec == s.codec
            && (d.hw ==> !b.async && d.width == s.metaW && d.height == s.metaH)
  {
    hide Run;
    RunKeeps(b, Initial(), events);
  }

  // ---------------------------------------------------------------- which decoder is chosen

  /** Whether hardware is asked for at all: the build has it, the source takes GPU surfaces, neither the
      user nor a failed import wants software, and the machine offers a backend. */
  predicate AsksHardware(b: Build, requested: Backend, force: bool, env: Env) {
    b.zeroCopy && !b.async && !force && requested != Software && env.detect != Software
  }

  /** backend_ and the decoder of a creation. Hardware that cannot be created is replaced by software. */
  predicate Chosen(b: Build, requested: Backend, force: bool, env: Env, backend: Backend, made: Option<Dec>, d: Dec) {
    var asks := AsksHardware(b, requested, force, env);
    && backend == (if asks then env.detect else if b.swDecode then Software else Count)
    && made == (if asks && env.detect != Count && env.hwOk then Some(d.(hw := true))
                else if b.swDecode && env.swOk then Some(d.(hw := false))
                else None)
  }

  lemma CreateChooses(b: Build, requested: Backend, env: Env, d: Dec, software: bool)
    requires !d.hw
    ensures var made := Create(b, requested, env, d.codec, d.width, d.height, software, d.tenBit);
            Chosen(b, requested, software, env, made.1, made.0, d)
  {
  }

  /** Nothing changes on a message with codec and size unless there is no decoder, the codec or the size
      is new, or a failed import forbids the hardware decoder in use. */
  predicate Unchanged(s: State, codec: Nal.Codec, w: int, h: int) {
    s.decoder.Some? && codec == s.codec && w == s.metaW && h == s.metaH && !(s.force && s.backend != Software)
  }

  lemma MetaUnchanged(b: Build, s: State, env: Env, codec: Nal.Codec, w: int, h: int)
    requires Unchanged(s, codec, w, h)
    ensures Step(b, s, Meta(env, codec, w, h)) == s
  {
  }

  /** Otherwise a running source installs what is chosen for the new codec and size and the depth known so
      far; one that is not running drops its decoder. */
  lemma MetaDecides(b: Build, s: State, env: Env, codec: Nal.Codec, w: int, h: int)
    requires !Unchanged(s, codec, w, h)
    ensures var t := Step(b, s, Meta(env, codec, w, h));
            && t.codec == codec && t.metaW == w && t.metaH == h && !t.pending
            && (s.running ==> Chosen(b, s.requested, s.force, env, t.backend, t.decoder,
                                     Dec(false, s.known && s.streamTenBit, codec, w, h)))
            && (!s.running ==> t.decoder == None && t.backend == s.backend)
  {
    CreateChooses(b, s.requested, env, Dec(false, s.known && s.streamTenBit, codec, w, h), s.force);
    hide Create, Chosen;
    var t := s.(metaW := w, metaH := h);
    assert NeedsRebuild(s, codec, w, h);
    assert Step(b, s, Meta(env, codec, w, h)) == RebuildForMeta(b, t, env, codec);
  }

  /** In every run: after a start and the first message with codec and size, the decoder is a hardware one
      on the detected backend if and only if the build is zero-copy, the source not async, neither the
      request nor the detection software, and the hardware decoder can be created. Otherwise it is a
      software decoder, and none exactly when the build has no software or it cannot be created. */
  lemma HardwareExact(b: Build, before: seq<Event>, env: Env, codec: Nal.Codec, w: int, h: int)
    requires !Run(b, Initial(), before).running
    ensures var s := Run(b, Initial(), before);
            var t := Step(b, Step(b, s, Started(true)), Meta(env, codec, w, h));
            var hardware := b.zeroCopy && !b.async && s.requested != Software
                            && env.detect != Software && env.detect != Count && env.hwOk;
            && t.running
            && (t.decoder == Some(Dec(true, false, codec, w, h)) && t.backend == env.detect <==> hardware)
            && (t.decoder == Some(Dec(false, false, codec, w, h)) <==> !hardware && b.swDecode && env.swOk)
            && (t.decoder == None <==> !hardware && !(b.swDecode && env.swOk))
  {
    var s := Run(b, Initial(), before);
    hide Run;
    MetaDecides(b, Step(b, s, Started(true)), env, codec, w, h);
    hide OnMeta;
  }

  /** The key frame gate. */
  predicate Passes(s: State, key: bool) {
    s.running && (s.wait ==> s.shown || key)
  }

  /** A decoder that does not know the depth learns it from a depth of at least 8. */
  predicate Learns(s: State, depth: int) {
    s.decoder.Some? && !s.known && depth >= 8
  }

  /** A hardware decoder is replaced when the depth is known and not the one it was created for. */
  predicate Replaces(s: State, depth: int) {
    var tenBit := if Learns(s, depth) then depth >= 10 else s.streamTenBit;
    s.decoder.Some? && (s.known || depth >= 8) && s.backend != Software && s.decoderTenBit != tenBit
  }

  lemma VideoGated(b: Build, s: State, e: Event)
    requires e.Video? && !Passes(s, e.key)
    ensures Step(b, s, e) == s
  {
    hide Decode, RebuildForDepth, Sniff;
  }

  lemma VideoStages(b: Build, s: State, e: Event)
    requires e.Video? && Passes(s, e.key)
    ensures Step(b, s, e)
            == Decode(b, RebuildForDepth(b, Sniff(s.(shown := s.shown || s.wait), e.data), e.env), e.got)
  {
    hide Decode, RebuildForDepth, Sniff;
    assert (s.shown || (s.wait && e.key)) == (s.shown || s.wait);
  }

  lemma SniffDecides(s: State, data: seq<byte>)
    ensures var t, depth := Sniff(s, data), Nal.BitDepth(s.codec, data);
            && t == s.(known := t.known, streamTenBit := t.streamTenBit)
            && t.known == (s.known || Learns(s, depth))
            && t.streamTenBit == (if Learns(s, depth) then depth >= 10 else s.streamTenBit)
  {
    hide Nal.BitDepth;
  }

  /** What an access unit teaches, and what it does to the decoder. */
  lemma VideoDecides(b: Build, s: State, e: Event)
    requires e.Video? && Passes(s, e.key)
    ensures var t, depth := Step(b, s, e), Nal.BitDepth(s.codec, e.data);
            && t.shown == (s.shown || s.wait)
            && t.known == (s.known || Learns(s, depth))
            && t.streamTenBit == (if Learns(s, depth) then depth >= 10 else s.streamTenBit)
            && (Replaces(s, depth) ==> t.decoderTenBit == t.streamTenBit)
            && (Replaces(s, depth) ==> Chosen(b, s.requested, false, e.env, t.backend, t.decoder,
                                              Dec(false, t.streamTenBit, s.codec, s.metaW, s.metaH)))
            && (!Replaces(s, depth) ==>
                  t.decoder == s.decoder && t.backend == s.backend && t.decoderTenBit == s.decoderTenBit)
  {
    hide Nal.BitDepth, Sniff, RebuildForDepth, Decode, Chosen, Step;
    VideoStages(b, s, e);
    var s' := s.(shown := s.shown || s.wait);
    SniffDecides(s', e.data);
    var u := Sniff(s', e.data);
    RebuildDecides(b, u, e.env);
    DecodeDecides(b, RebuildForDepth(b, u, e.env), e.got);
  }

  /** It is decoded exactly once if there is then a decoder, by that one, and a hardware frame waits to be
      drawn. */
  lemma VideoDecodes(b: Build, s: State, e: Event)
    requires e.Video? && Passes(s, e.key)
    ensures var t, depth := Step(b, s, e), Nal.BitDepth(s.codec, e.data);
            && t.calls == s.calls + (if t.decoder.None? then []
                                     else [Call(t.decoder.value, t.backend, t.known, t.streamTenBit, s.force)])
            && t.pending == ((s.pending && !Replaces(s, depth))
                             || (t.decoder.Some? && t.decoder.value.hw && e.got && !b.async))
  {
    hide Nal.BitDepth, Sniff, RebuildForDepth, Decode, Chosen, Step;
    VideoStages(b, s, e);
    var s' := s.(shown := s.shown || s.wait);
    SniffDecides(s', e.data);
    var u := Sniff(s', e.data);
    RebuildDecides(b, u, e.env);
    DecodeDecides(b, RebuildForDepth(b, u, e.env), e.got);
  }

  lemma RebuildDecides(b: Build, s: State, env: Env)
    ensures var t := RebuildForDepth(b, s, env);
            var rebuilds := s.known && s.decoder.Some? && s.backend != Software && s.decoderTenBit != s.streamTenBit;
            && t == s.(decoder := t.decoder, backend := t.backend, decoderTenBit := t.decoderTenBit,
                       pending := t.pending)
            && (!rebuilds ==> t == s)
            && (rebuilds ==> !t.pending && t.decoderTenBit == s.streamTenBit)
            && (rebuilds ==> Chosen(b, s.requested, false, env, t.backend, t.decoder,
                                    Dec(false, s.streamTenBit, s.codec, s.metaW, s.metaH)))
  {
    CreateChooses(b, s.requested, env, Dec(false, s.streamTenBit, s.codec, s.metaW, s.metaH), false);
    hide Create, Chosen;
  }

  lemma DecodeDecides(b: Build, s: State, got: bool)
    ensures var t := Decode(b, s, got);
            && t == s.(calls := t.calls, pending := t.pending)
            && t.calls == s.calls + (if s.decoder.None? then []
                                     else [Call(s.decoder.value, s.backend, s.known, s.streamTenBit, s.force)])
            && t.pending == (s.pending || (s.decoder.Some? && s.decoder.value.hw && got && !b.async))
  {
    assert s.calls + [] == s.calls;
  }

  /** What drawing does: a pending frame is imported, or dropped; the first drop of a connection forbids
      hardware and puts a software decoder of the same codec and depth in place, if there is one. */
  lemma RenderDecides(b: Build, s: State, env: Env, imports: bool, w: int, h: int)
    ensures var t := Step(b, s, Rendered(env, imports, w, h));
            && !t.pending && t.codec == s.codec
            && t.force == (s.force || (s.pending && !(s.decoder.Some? && imports)))
            && (t.force == s.force ==> t.decoder == s.decoder && t.backend == s.backend)
            && (t.force != s.force && !s.running ==> t.decoder == None && t.backend == s.backend)
            && (t.force != s.force && s.running ==>
                  Chosen(b, s.requested, true, env, t.backend, t.decoder,
                         Dec(false, s.known && s.streamTenBit, s.codec, w, h)))
  {
    CreateChooses(b, s.requested, env, Dec(false, s.known && s.streamTenBit, s.codec, w, h), true);
    hide Create, Chosen;
  }

  /** What starting and stopping leave: a fresh connection knows no depth, no frame and no decoder. */
  lemma RestartDecides(b: Build, s: State, haveIp: bool)
    ensures var t := Step(b, s, Started(haveIp));
            if haveIp && !s.running
            then t.running && !t.known && !t.force && !t.shown && t.decoder == None && t.requested == s.requested
            else t == s
    ensures var t := Step(b, s, Stopped); !t.running && !t.pending && !t.force && t.decoder == None
    ensures var t := Step(b, s, Reconnected(false, haveIp));
            t.running == haveIp && !t.pending && (haveIp ==> !t.known && !t.force && t.decoder == None)
    ensures !Step(b, s, Reconnected(true, haveIp)).running
  {
  }

  /** What new settings do: unchanged ones nothing; otherwise the source is stopped and started with them,
      and CUDA is never asked for. */
  lemma SettingsDecide(b: Build, s: State, backend: Backend, wait: bool, other: bool, haveIp: bool)
    ensures var t := Step(b, s, Updated(backend, wait, other, haveIp));
            var wanted := if backend == Cuda then Auto else backend;
            if wanted == s.requested && wait == s.wait && !other then t == s
            else t.requested == wanted && t.wait == wait && t.running == haveIp && t.decoder == None
                 && !t.pending && !t.force && (haveIp ==> !t.known)
  {
  }

  // ---------------------------------------------------------------- after a failed import

  lemma StepForced(b: Build, s: State, e: Event)
    requires Inv(b, s) && s.force && !Restarts(e)
    ensures var u := Step(b, s, e);
            && u.force && |s.calls| <= |u.calls| && u.calls[..|s.calls|] == s.calls
            && forall i :: |s.calls| <= i < |u.calls| ==> !u.calls[i].dec.hw
  {
    hide DecoderOk, CallsOk, OnMeta, OnVideoData, VideoRender;
    match e {
      case Meta(env, codec, w, h) =>
      case Video(env, data, key, got) => VideoKeeps(b, s, env, data, key, got);
      case Rendered(env, imports, w, h) => RenderKeeps(b, s, env, imports, w, h);
    }
  }

  lemma {:induction false} RunForced(b: Build, s: State, events: seq<Event>)
    requires Inv(b, s) && s.force && forall e :: e in events ==> !Restarts(e)
    ensures var t := Run(b, s, events);
            && t.force && |s.calls| <= |t.calls| && t.calls[..|s.calls|] == s.calls
            && forall i :: |s.calls| <= i < |t.calls| ==> !t.calls[i].dec.hw
    decreases |events|
  {
    hide Step, Inv;
    if events != [] {
      var e := events[0];
      assert e in events;
      var u, t := Step(b, s, e), Run(b, s, events);
      StepForced(b, s, e);
      StepKeeps(b, s, e);
      RunForced(b, u, events[1..]);
      assert t.calls[..|s.calls|] == t.calls[..|u.calls|][..|s.calls|];
      forall i | |s.calls| <= i < |u.calls| ensures !t.calls[i].dec.hw {
        assert t.calls[i] == t.calls[..|u.calls|][i];
      }
    }
  }

  /** After a surface could not be imported, and until the next start or stop, the installed
      decoder is never a hardware one, and no frame is decoded by one. */
  lemma SoftwareAfterFailedImport(b: Build, before: seq<Event>, failed: Event, after: seq<Event>)
    requires failed.Rendered? && Run(b, Initial(), before).pending
    requires !failed.imports || Run(b, Initial(), before).decoder.None?
    requires forall e :: e in after ==> !Restarts(e)
    ensures var s := Step(b, Run(b, Initial(), before), failed); var t := Run(b, s, after);
            && (t.decoder.Some? ==> !t.decoder.value.hw)
            && |s.calls| <= |t.calls|
            && forall i :: |s.calls| <= i < |t.calls| ==> !t.calls[i].dec.hw
  {
    hide Run;
    var r := Run(b, Initial(), before);
    RunKeeps(b, Initial(), before);
    var s := Step(b, r, failed);
    StepKeeps(b, r, failed);
    hide Step;
    RunForced(b, s, after);
    RunKeeps(b, s, after);
  }

  // ---------------------------------------------------------------- the depth of a connection

  ghost predicate Extends(s: State, t: State) {
    |s.calls| <= |t.calls| && t.calls[..|s.calls|] == s.calls
  }

  lemma StepKnown(b: Build, s: State, e: Event)
    requires Inv(b, s) && s.known && !Restarts(e)
    ensures var u := Step(b, s, e);
            && u.known && u.streamTenBit == s.streamTenBit && Extends(s, u)
            && forall i :: |s.calls| <= i < |u.calls| ==> u.calls[i].known && u.calls[i].streamTenBit == s.streamTenBit
  {
    hide DecoderOk, CallsOk, CallOk, OnMeta, OnVideoData, VideoRender;
    match e {
      case Meta(env, codec, w, h) =>
      case Video(env, data, key, got) => VideoKeeps(b, s, env, data, key, got);
      case Rendered(env, imports, w, h) => RenderKeeps(b, s, env, imports, w, h);
    }
  }

  /** A bit depth once learned holds for every decode call until the next start or stop. */
  lemma {:induction false} RunKnown(b: Build, s: State, events: seq<Event>)
    requires Inv(b, s) && s.known && forall e :: e in events ==> !Restarts(e)
    ensures var t := Run(b, s, events);
            && Extends(s, t)
            && forall i :: |s.calls| <= i < |t.calls| ==> t.calls[i].known && t.calls[i].streamTenBit == s.streamTenBit
    decreases |events|
  {
    hide Step, Inv;
    if events != [] {
      var e := events[0];
      assert e in events;
      var u, t := Step(b, s, e), Run(b, s, events);
      StepKnown(b, s, e);
      StepKeeps(b, s, e);
      RunKnown(b, u, events[1..]);
      assert t.calls[..|s.calls|] == t.calls[..|u.calls|][..|s.calls|];
      forall i | |s.calls| <= i < |u.calls| ensures t.calls[i] == u.calls[i] {
        assert t.calls[i] == t.calls[..|u.calls|][i];
      }
    }
  }

  /** The access unit passes the key frame gate of a running source that has a decoder and does not
      know the depth yet. */
  predicate Sniffs(s: State, key: bool) {
    s.running && (s.wait ==> s.shown || key) && s.decoder.Some? && !s.known
  }

  lemma VideoLearns(b: Build, s: State, env: Env, data: seq<byte>, key: bool, got: bool)
    requires Inv(b, s) && Sniffs(s, key)
    ensures var t, depth := OnVideoData(b, s, env, data, key, got), Nal.BitDepth(s.codec, data);
            && t.known == (depth >= 8) && (t.known ==> t.streamTenBit == (depth >= 10)) && Extends(s, t)
            && forall i :: |s.calls| <= i < |t.calls| ==>
                 t.calls[i].known == t.known && t.calls[i].streamTenBit == t.streamTenBit
  {
    VideoKeeps(b, s, env, data, key, got);
    hide RebuildForDepth, Nal.BitDepth;
  }

  lemma InitialInv(b: Build)
    ensures Inv(b, Initial())
  {
  }

  lemma CallIsOk(b: Build, s: State, i: nat)
    requires Inv(b, s) && i < |s.calls|
    ensures CallOk(s.calls[i])
  {
  }

  /** The access unit that settles the depth decides every hardware decode of the connection: from
      then on, and until the next start or stop, every decode call with a backend_ other than
      software uses a decoder created for ten bits exactly when the sniffed depth is at least ten. */
  lemma DepthDecidesDecoders(b: Build, before: seq<Event>, unit: Event, after: seq<Event>, i: nat)
    requires unit.Video? && Sniffs(Run(b, Initial(), before), unit.key)
    requires Nal.BitDepth(Run(b, Initial(), before).codec, unit.data) >= 8
    requires forall e :: e in after ==> !Restarts(e)
    requires var s := Run(b, Initial(), before);
             |s.calls| <= i < |Run(b, Step(b, s, unit), after).calls|
    ensures var s := Run(b, Initial(), before);
            var c := Run(b, Step(b, s, unit), after).calls[i];
            c.known && (c.backend != Software ==> c.dec.tenBit == (Nal.BitDepth(s.codec, unit.data) >= 10))
  {
    hide Run, Nal.BitDepth, OnVideoData, Inv;
    var s := Run(b, Initial(), before);
    InitialInv(b);
    RunKeeps(b, Initial(), before);
    VideoLearns(b, s, unit.env, unit.data, unit.key, unit.got);
    var u := Step(b, s, unit);
    StepKeeps(b, s, unit);
    RunKnown(b, u, after);
    RunKeeps(b, u, after);
    var t := Run(b, u, after);
    CallIsOk(b, t, i);
    if i < |u.calls| {
      assert t.calls[i] == t.calls[..|u.calls|][i];
    }
  }

  /** While the depth is unknown, decoders are created for eight bits. */
  predicate EightBit(s: State) {
    !s.known && s.decoder.Some? && s.backend != Software ==> !s.decoderTenBit
  }

  lemma MetaEightBit(b: Build, s: State, env: Env, codec: Nal.Codec, w: int, h: int)
    requires EightBit(s)
    ensures EightBit(OnMeta(b, s, env, codec, w, h))
  {
    hide Create;
  }

  lemma VideoEightBit(b: Build, s: State, env: Env, data: seq<byte>, key: bool, got: bool)
    requires EightBit(s)
    ensures EightBit(OnVideoData(b, s, env, data, key, got))
  {
    hide Nal.BitDepth, Create;
  }

  lemma RenderEightBit(b: Build, s: State, env: Env, imports: bool, w: int, h: int)
    requires EightBit(s)
    ensures EightBit(VideoRender(b, s, env, imports, w, h))
  {
  }

  lemma StepEightBit(b: Build, s: State, e: Event)
    requires EightBit(s)
    ensures EightBit(Step(b, s, e))
  {
    match e {
      case Meta(env, codec, w, h) => MetaEightBit(b, s, env, codec, w, h);
      case Video(env, data, key, got) => VideoEightBit(b, s, env, data, key, got);
      case Rendered(env, imports, w, h) => RenderEightBit(b, s, env, imports, w, h);
      case _ =>
    }
    hide OnMeta, OnVideoData, VideoRender;
  }

  lemma {:induction false} RunEightBit(b: Build, s: State, events: seq<Event>)
    requires EightBit(s)
    ensures EightBit(Run(b, s, events))
    decreases |events|
  {
    hide Step, EightBit;
    if events != [] {
      StepEightBit(b, s, events[0]);
      RunEightBit(b, Step(b, s, events[0]), events[1..]);
    }
  }

  /** An access unit that begins with an H.264 parameter set of a listed profile: the decoders
      follow the depth coded in it, whatever comes behind it. */
  lemma H264SpsDecidesDecoders(
    b: Build, before: seq<Event>, unit: Event, after: seq<Event>, i: nat,
    zeros: nat, header: byte, sps: Sps.H264Sps, more: seq<Bits.bit>, r: Nal.Rest)
    requires unit.Video? && Sniffs(Run(b, Initial(), before), unit.key)
    requires Run(b, Initial(), before).codec == Nal.H264
    requires zeros >= 2 && r.Valid() && header % 32 == 7 && sps.Valid() && Sps.ReadsDepth(sps.profileIdc)
    requires var payload := Nal.Escape(NalStream.Rbsp(Sps.EncodeH264(sps) + more));
             && |payload| + |r.Counted()| <= Nal.RBSP_SIZE
             && unit.data == Zeros(zeros) + [1] + ([header] + payload + r.Bytes())
    requires forall e :: e in after ==> !Restarts(e)
    requires var s := Run(b, Initial(), before);
             |s.calls| <= i < |Run(b, Step(b, s, unit), after).calls|
    ensures var c := Run(b, Step(b, Run(b, Initial(), before), unit), after).calls[i];
            c.backend != Software ==> c.dec.tenBit == (sps.bitDepthLumaMinus8 >= 2)
  {
    NalStream.H264StreamDepth(zeros, header, sps, more, r);
    hide Run, Step, Nal.BitDepth, Nal.Escape, NalStream.Rbsp, Sps.EncodeH264;
    DepthDecidesDecoders(b, before, unit, after, i);
  }

  /** The same for an H.265 parameter set without sub-layers. */
  lemma HevcSpsDecidesDecoders(
    b: Build, before: seq<Event>, unit: Event, after: seq<Event>, i: nat,
    zeros: nat, h0: byte, h1: byte, sps: Sps.HevcSps, more: seq<Bits.bit>, r: Nal.Rest)
    requires unit.Video? && Sniffs(Run(b, Initial(), before), unit.key)
    requires Run(b, Initial(), before).codec == Nal.Hevc
    requires zeros >= 2 && r.Valid() && h0 / 2 % 64 == 33 && h1 != 0 && sps.Valid() && sps.subLayers == []
    requires var payload := Nal.Escape(NalStream.Rbsp(Sps.EncodeHevc(sps) + more));
             && |payload| + |r.Counted()| <= Nal.RBSP_SIZE
             && unit.data == Zeros(zeros) + [1] + ([h0, h1] + payload + r.Bytes())
    requires forall e :: e in after ==> !Restarts(e)
    requires var s := Run(b, Initial(), before);
             |s.calls| <= i < |Run(b, Step(b, s, unit), after).calls|
    ensures var c := Run(b, Step(b, Run(b, Initial(), before), unit), after).calls[i];
            c.backend != Software ==> c.dec.tenBit == (sps.bitDepthLumaMinus8 >= 2)
  {
    NalStream.HevcStreamDepth(zeros, h0, h1, sps, more, r);
    hide Run, Step, Nal.BitDepth, Nal.Escape, NalStream.Rbsp, Sps.EncodeHevc;
    DepthDecidesDecoders(b, before, unit, after, i);
  }

  /** An access unit that begins with another unit, such as the video parameter set of H.265 or the
      delimiter of H.264, and has no usable parameter set at an even position leaves the depth
      unknown, so the decoder in use stays as it was: created for eight bits, whatever depth the
      stream has. */
  lemma OtherFirstLeavesEightBit(
    b: Build, before: seq<Event>, unit: Event, us: seq<NalStream.Unit>, t: nat)
    requires unit.Video? && Sniffs(Run(b, Initial(), before), unit.key)
    requires Run(b, Initial(), before).backend != Software
    requires NalStream.ValidUnits(us) && us != [] && us[0].zeros == 3 && |us[0].nal| >= 2
    requires us[0].nal[0] % 32 != Run(b, Initial(), before).codec.SpsType() && us[0].nal[1] != 0
    requires unit.data == NalStream.Stream(us, t) && |unit.data| < 0x100_0000
    requires NalStream.FirstUsable(Run(b, Initial(), before).codec, us, t, 0, 2).None?
    ensures var s := Run(b, Initial(), before); var u := Step(b, s, unit);
            && !u.known && u.decoder == s.decoder
            && |u.calls| == |s.calls| + 1 && u.calls[|s.calls|].dec == s.decoder.value
            && !s.decoder.value.tenBit
  {
    NalStream.OtherFirstExact(Run(b, Initial(), before).codec, us, t);
    hide Run, Nal.BitDepth, NalStream.Stream, NalStream.FirstUsable, NalStream.ValidUnits, Step;
    RunEightBit(b, Initial(), before);
    RunKeeps(b, Initial(), before);
    VideoUnknown(b, Run(b, Initial(), before), unit);
  }

  lemma VideoUnknown(b: Build, s: State, unit: Event)
    requires unit.Video? && Sniffs(s, unit.key) && Nal.BitDepth(s.codec, unit.data) < 8
    ensures var u := Step(b, s, unit);
            && !u.known && u.decoder == s.decoder
            && |u.calls| == |s.calls| + 1 && u.calls[|s.calls|].dec == s.decoder.value
  {
    hide Nal.BitDepth, Create;
  }

  // ---------------------------------------------------------------- when nothing is decoded

  /** The source is stopped, or waits for a key frame and has seen none. */
  predicate Holds(s: State) {
    !s.running || (s.wait && !s.shown)
  }

  lemma StepHolds(b: Build, s: State, e: Event)
    requires Holds(s) && !Restarts(e) && (e.Video? ==> !e.key || !s.running)
    ensures var t := Step(b, s, e); t.calls == s.calls && t.running == s.running && Holds(t)
  {
    hide OnMeta, VideoRender, Decode, RebuildForDepth, Sniff;
  }

  /** A source that is stopped, or that has been started to wait for a key frame, decodes nothing
      before the next start, or before a key frame. */
  lemma {:induction false} NothingDecoded(b: Build, s: State, events: seq<Event>)
    requires Holds(s)
    requires forall e :: e in events ==> !Restarts(e) && (e.Video? ==> !e.key || !s.running)
    ensures Run(b, s, events).calls == s.calls && Holds(Run(b, s, events))
    decreases |events|
  {
    if events != [] {
      var e := events[0];
      assert e in events;
      StepHolds(b, s, e);
      hide Step, Holds;
      NothingDecoded(b, Step(b, s, e), events[1..]);
    }
  }
}
