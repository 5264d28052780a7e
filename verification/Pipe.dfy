/** The message pipe between ssp_connector/main.cpp (writer) and src/ssp-client-iso.cpp (reader):
    packed little-endian records behind an 8-byte header, read back over short pipe reads. */
module Pipe {
  import opened Common

  type u16 = x: int | 0 <= x < 0x1_0000
  type u32 = x: int | 0 <= x < 0x1_0000_0000
  type u64 = x: int | 0 <= x < 0x1_0000_0000_0000_0000
  type i32 = x: int | -0x8000_0000 <= x < 0x8000_0000

  // ---------------------------------------------------------------- packed records

  function Le(v: nat, width: nat): (r: seq<byte>)
    ensures |r| == width
  {
    if width == 0 then [] else [v % 256] + Le(v / 256, width - 1)
  }

  function UnLe(b: seq<byte>): (r: nat)
    ensures r < Pow256(|b|)
  {
    if b == [] then 0 else b[0] as int + 256 * UnLe(b[1..])
  }

  function Total(widths: seq<nat>): nat {
    if widths == [] then 0 else widths[0] + Total(widths[1..])
  }

  function Pack(widths: seq<nat>, values: seq<nat>): (r: seq<byte>)
    requires |widths| == |values|
    ensures |r| == Total(widths)
  {
    if widths == [] then [] else Le(values[0], widths[0]) + Pack(widths[1..], values[1..])
  }

  function Unpack(widths: seq<nat>, b: seq<byte>): (r: seq<nat>)
    requires |b| >= Total(widths)
    ensures Fits(widths, r)
  {
    if widths == [] then [] else [UnLe(b[..widths[0]])] + Unpack(widths[1..], b[widths[0]..])
  }

  predicate Fits(widths: seq<nat>, values: seq<nat>) {
    |widths| == |values| && forall i :: 0 <= i < |values| ==> values[i] < Pow256(widths[i])
  }

  lemma Pow256Values()
    ensures Pow256(2) == 0x1_0000 && Pow256(4) == 0x1_0000_0000 && Pow256(8) == 0x1_0000_0000_0000_0000
  {
    assert Pow256(4) == 256 * Pow256(3) == 65536 * Pow256(2);
    assert Pow256(8) == 256 * Pow256(7) == 65536 * Pow256(6) == 65536 * 256 * Pow256(5) == 65536 * 65536 * Pow256(4);
  }

  lemma {:induction false} UnLeOfLe(v: nat, w: nat)
    requires v < Pow256(w)
    ensures UnLe(Le(v, w)) == v
  {
    if w > 0 {
      UnLeOfLe(v / 256, w - 1);
      assert Le(v, w)[1..] == Le(v / 256, w - 1);
    }
  }

  lemma {:induction false} UnpackPack(widths: seq<nat>, values: seq<nat>, tail: seq<byte>)
    requires Fits(widths, values)
    ensures Unpack(widths, Pack(widths, values) + tail) == values
  {
    hide UnLe, Le, Pow256;
    if widths != [] {
      var w := widths[0];
      var first, rest := Le(values[0], w), Pack(widths[1..], values[1..]);
      var b := Pack(widths, values) + tail;
      assert b == first + (rest + tail);
      assert b[..w] == first && b[w..] == rest + tail;
      UnLeOfLe(values[0], w);
      UnpackPack(widths[1..], values[1..], tail);
      assert [values[0]] + values[1..] == values;
    }
  }

  // ---------------------------------------------------------------- events and messages

  datatype Base = Base(wallClock: u16, dropFrame: u16, timecode: u32)
  datatype VideoMeta = VideoMeta(width: u32, height: u32, timescale: u32, unit: u32, gop: u32, encoder: u32)
  datatype AudioMeta = AudioMeta(timescale: u32, unit: u32, rate: u32, size: u32, channel: u32, bitrate: u32,
      encoder: u32)

  /** What the connector reports and the plugin's callbacks receive. */
  datatype Event =
    | Meta(base: Base, video: VideoMeta, audio: AudioMeta)
    | Video(pts: u64, ntp: u64, frame: u32, kind: u32, data: seq<byte>)
    | Audio(pts: u64, ntp: u64, data: seq<byte>)
    | BufferFull
    | Disconnected
    | Connected
    | Exception(code: i32, text: seq<byte>)

  /** The whole record must be countable in the 32-bit length field, and a C string has no zero. */
  predicate Sendable(e: Event) {
    match e
    case Video(_, _, _, _, data) => 32 + |data| < 0x1_0000_0000
    case Audio(_, _, data) => 24 + |data| < 0x1_0000_0000
    case Exception(_, text) => 9 + |text| < 0x1_0000_0000 && 0 !in text
    case _ => true
  }

  datatype Message = Message(kind: u32, value: seq<byte>)

  const META: u32 := 1
  const VIDEO: u32 := 2
  const AUDIO: u32 := 3
  const BUFFER_FULL: u32 := 4
  const DISCONNECT: u32 := 5
  const CONNECTED: u32 := 6
  const EXCEPTION: u32 := 7
  const CONNECTOR_OK: u32 := 8

  const HEADER: seq<nat> := [4, 4]
  const META_FIELDS: seq<nat> := [2, 2, 4, 4, 4, 4, 4, 4, 4, 4, 4, 4, 4, 4, 4, 4]
  const VIDEO_FIELDS: seq<nat> := [8, 8, 4, 4, 8]
  const AUDIO_FIELDS: seq<nat> := [8, 8, 8]

  function MetaValues(b: Base, v: VideoMeta, a: AudioMeta): seq<nat> {
    [b.wallClock, b.dropFrame, b.timecode,
     v.width, v.height, v.timescale, v.unit, v.gop, v.encoder,
     a.timescale, a.unit, a.rate, a.size, a.channel, a.bitrate, a.encoder]
  }

  /** An `int` stored in a uint32_t field. */
  function Wrap(code: i32): u32 {
    if code < 0 then code + 0x1_0000_0000 else code
  }

  function MessageOf(e: Event): Message {
    match e
    case Meta(b, v, a) => Message(META, Pack(META_FIELDS, MetaValues(b, v, a)))
    case Video(pts, ntp, frame, kind, data) =>
      Message(VIDEO, Pack(VIDEO_FIELDS, [pts, ntp, frame, kind, |data|]) + data)
    case Audio(pts, ntp, data) => Message(AUDIO, Pack(AUDIO_FIELDS, [pts, ntp, |data|]) + data)
    case BufferFull => Message(BUFFER_FULL, [])
    case Disconnected => Message(DISCONNECT, [])
    case Connected => Message(CONNECTED, [])
    case Exception(code, text) =>
      Message(EXCEPTION, Pack(HEADER, [Wrap(code), |text| + 1]) + text + [0])
  }

  function Bytes(m: Message): (r: seq<byte>)
    ensures |r| == Total(HEADER) + |m.value|
  {
    Pack(HEADER, [m.kind, |m.value|]) + m.value
  }

  function Encode(e: Event): seq<byte> {
    Bytes(MessageOf(e))
  }

  function EncodeAll(es: seq<Event>): seq<byte> {
    if es == [] then [] else Encode(es[0]) + EncodeAll(es[1..])
  }

  /** Everything the connector writes: the greeting, then one record per event. */
  function Stream(es: seq<Event>): seq<byte> {
    Bytes(Message(CONNECTOR_OK, [])) + EncodeAll(es)
  }

  // ---------------------------------------------------------------- the reader, as functions

  /** msg_recv on the bytes left in the pipe: the message and what follows it, or nothing when the
      pipe ends inside it. */
  function Recv(b: seq<byte>): (r: Option<(Message, seq<byte>)>)
    ensures r.Some? ==> |r.value.1| < |b|
  {
    if |b| < 8 then None
    else
      var fields := Unpack(HEADER, b[..8]);
      Pow256Values();
      if |b| - 8 < fields[1] then None
      else Some((Message(fields[0], b[8..8 + fields[1]]), b[8 + fields[1]..]))
  }

  function CString(b: seq<byte>): Option<seq<byte>> {
    if b == [] then None
    else if b[0] == 0 then Some([])
    else match CString(b[1..])
         case None => None
         case Some(rest) => Some([b[0]] + rest)
  }

  function MetaOf(f: seq<nat>): Event
    requires Fits(META_FIELDS, f)
  {
    Pow256Values();
    assert META_FIELDS[0] == META_FIELDS[1] == 2 && forall i :: 2 <= i < 16 ==> META_FIELDS[i] == 4;
    Meta(Base(f[0], f[1], f[2]),
         VideoMeta(f[3], f[4], f[5], f[6], f[7], f[8]),
         AudioMeta(f[9], f[10], f[11], f[12], f[13], f[14], f[15]))
  }

  /** The callback a message leads to. A type that is not in the list, or a record that claims more
      than the message holds, leads to none. */
  function Dispatch(m: Message): Option<Event> {
    Pow256Values();
    var b := m.value;
    if m.kind == META then
      if |b| < Total(META_FIELDS) then None else Some(MetaOf(Unpack(META_FIELDS, b)))
    else if m.kind == VIDEO then
      if |b| < Total(VIDEO_FIELDS) then None
      else
        var f := Unpack(VIDEO_FIELDS, b);
        if f[4] > |b| - Total(VIDEO_FIELDS) then None
        else Some(Video(f[0], f[1], f[2], f[3], b[Total(VIDEO_FIELDS)..][..f[4]]))
    else if m.kind == AUDIO then
      if |b| < Total(AUDIO_FIELDS) then None
      else
        var f := Unpack(AUDIO_FIELDS, b);
        if f[2] > |b| - Total(AUDIO_FIELDS) then None
        else Some(Audio(f[0], f[1], b[Total(AUDIO_FIELDS)..][..f[2]]))
    else if m.kind == BUFFER_FULL then Some(BufferFull)
    else if m.kind == DISCONNECT then Some(Disconnected)
    else if m.kind == CONNECTED then Some(Connected)
    else if m.kind == EXCEPTION then
      if |b| < Total(HEADER) then None
      else
        (match CString(b[Total(HEADER)..])
         case None => None
         case Some(text) => Some(Exception(Int32(Unpack(HEADER, b)[0]), text)))
    else None
  }

  /** The receive loop: at most `turns` iterations find running set. */
  function Loop(b: seq<byte>, turns: nat): seq<Event>
    decreases turns
  {
    if turns == 0 then []
    else match Recv(b)
         case None => []
         case Some((m, rest)) =>
           (match Dispatch(m)
            case None => Loop(rest, turns - 1)
            case Some(e) => [e] + Loop(rest, turns - 1))
  }

  function Receive(b: seq<byte>, turns: nat): seq<Event> {
    match Recv(b)
    case None => []
    case Some((m, rest)) => if m.kind != CONNECTOR_OK then [] else Loop(rest, turns)
  }
}
