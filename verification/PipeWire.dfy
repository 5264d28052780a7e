/** The octets on the pipe, offset by offset, as the packed structures of
    ssp_connector/ssp_connector_proto.h lay them out. */
module PipeWire {
  import opened Common
  import opened Pipe
  import opened PipeProof

  /** The little-endian number in w octets at an offset. */
  function Field(b: seq<byte>, at: nat, w: nat): nat
    requires at + w <= |b|
    decreases w
  {
    if w == 0 then 0 else b[at] as int + 256 * Field(b, at + 1, w - 1)
  }

  lemma {:induction false} FieldShift(a: seq<byte>, b: seq<byte>, at: nat, w: nat)
    requires at + w <= |b|
    ensures Field(a + b, |a| + at, w) == Field(b, at, w)
    decreases w
  {
    if w > 0 {
      FieldShift(a, b, at + 1, w - 1);
    }
  }

  lemma {:induction false} FieldOfLe(v: nat, w: nat, tail: seq<byte>)
    requires v < Pow256(w)
    ensures Field(Le(v, w) + tail, 0, w) == v
    decreases w
  {
    if w > 0 {
      var rest := Le(v / 256, w - 1) + tail;
      FieldOfLe(v / 256, w - 1, tail);
      assert Le(v, w) + tail == [v % 256] + rest;
      FieldShift([v % 256], rest, 0, w - 1);
    }
  }

  /** Value i of a packed record stands behind the widths in front of it. */
  lemma {:induction false} FieldOfPack(widths: seq<nat>, values: seq<nat>, tail: seq<byte>, i: nat)
    requires Fits(widths, values) && i < |widths|
    ensures var b, at := Pack(widths, values) + tail, Total(widths[..i]);
            at + widths[i] <= |b| && Field(b, at, widths[i]) == values[i]
    decreases i
  {
    hide Le, Pow256;
    var first, more := Le(values[0], widths[0]), Pack(widths[1..], values[1..]);
    var b := Pack(widths, values) + tail;
    assert b == first + (more + tail);
    if i == 0 {
      assert widths[..0] == [];
      FieldOfLe(values[0], widths[0], more + tail);
    } else {
      FieldOfPack(widths[1..], values[1..], tail, i - 1);
      assert widths[..i][0] == widths[0] && widths[..i][1..] == widths[1..][..i - 1];
      FieldShift(first, more + tail, Total(widths[1..][..i - 1]), widths[i]);
    }
  }

  lemma {:induction false} TotalSplit(a: seq<nat>, b: seq<nat>)
    ensures Total(a + b) == Total(a) + Total(b)
  {
    if a == [] {
      assert a + b == b;
    } else {
      assert (a + b)[0] == a[0] && (a + b)[1..] == a[1..] + b;
      TotalSplit(a[1..], b);
    }
  }

  lemma TotalNext(widths: seq<nat>, i: nat)
    requires i < |widths|
    ensures Total(widths[..i + 1]) == Total(widths[..i]) + widths[i]
  {
    assert widths[..i + 1] == widths[..i] + [widths[i]] && [widths[i]][1..] == [];
    TotalSplit(widths[..i], [widths[i]]);
  }

  /** Field i of the record inside a message. */
  lemma {:induction false} FieldInMessage(kind: u32, widths: seq<nat>, values: seq<nat>, data: seq<byte>, i: nat)
    requires Fits(widths, values) && i < |widths|
    ensures var b := Bytes(Message(kind, Pack(widths, values) + data));
            var at := 8 + Total(widths[..i]);
            at + widths[i] <= |b| && Field(b, at, widths[i]) == values[i]
  {
    var value := Pack(widths, values) + data;
    FieldOfPack(widths, values, data, i);
    assert |Pack(HEADER, [kind, |value|])| == 8;
    hide Pack;
    FieldShift(Pack(HEADER, [kind, |value|]), value, Total(widths[..i]), widths[i]);
  }

  /** Every message: its type and the length of its value, four octets each, and then the value. */
  lemma {:induction false} MessageWire(m: Message)
    requires |m.value| < 0x1_0000_0000
    ensures var b := Bytes(m);
            && |b| == 8 + |m.value| && b[8..] == m.value
            && Field(b, 0, 4) == m.kind && Field(b, 4, 4) == |m.value|
  {
    Pow256Values();
    var values := [m.kind, |m.value|];
    assert Fits(HEADER, values);
    FieldOfPack(HEADER, values, m.value, 0);
    FieldOfPack(HEADER, values, m.value, 1);
    assert HEADER[..0] == [] && HEADER[..1] == [4] && [4][1..] == [];
    assert |Pack(HEADER, values)| == 8;
    hide Pack;
  }

  /** The types on the wire. */
  lemma {:induction false} KindsOnTheWire(e: Event)
    requires Sendable(e)
    ensures |Encode(e)| >= 8
    ensures Field(Encode(e), 0, 4) == match e
                                      case Meta(_, _, _) => 1
                                      case Video(_, _, _, _, _) => 2
                                      case Audio(_, _, _) => 3
                                      case BufferFull => 4
                                      case Disconnected => 5
                                      case Connected => 6
                                      case Exception(_, _) => 7
    ensures Field(Encode(e), 4, 4) == |Encode(e)| - 8
  {
    ValueIsSmall(e);
    MessageWire(MessageOf(e));
    hide Pack, Bytes, Field;
  }

  /** The stream begins with the greeting: type 8, no value. */
  lemma {:induction false} Greeting(es: seq<Event>)
    ensures |Stream(es)| >= 8 && Field(Stream(es), 0, 4) == 8 && Field(Stream(es), 4, 4) == 0
  {
    GreetingBytes(EncodeAll(es));
    hide EncodeAll;
  }

  lemma {:induction false} GreetingBytes(more: seq<byte>)
    ensures var b := Bytes(Message(8, [])) + more; |b| >= 8 && Field(b, 0, 4) == 8 && Field(b, 4, 4) == 0
  {
    Pow256Values();
    var values := [8, 0];
    assert Fits(HEADER, values);
    FieldOfPack(HEADER, values, more, 0);
    FieldOfPack(HEADER, values, more, 1);
    assert HEADER[..0] == [] && HEADER[..1] == [4] && [4][1..] == [] && Total([4]) == 4;
    hide Pack, Field;
    assert Pack(HEADER, values) + [] == Pack(HEADER, values);
  }

  /** A video message: 8-octet pts and time, 4-octet number and type, 8-octet length, then the data. */
  lemma {:induction false} VideoWire(e: Event)
    requires e.Video? && Sendable(e)
    ensures var b := Encode(e);
            && |b| == 40 + |e.data| && b[40..] == e.data
            && Field(b, 8, 8) == e.pts && Field(b, 16, 8) == e.ntp
            && Field(b, 24, 4) == e.frame && Field(b, 28, 4) == e.kind && Field(b, 32, 8) == |e.data|
  {
    Pow256Values();
    var values := [e.pts, e.ntp, e.frame, e.kind, |e.data|];
    assert Fits(VIDEO_FIELDS, values);
    ValueIsSmall(e);
    MessageWire(MessageOf(e));
    VideoOffsets();
    hide Pack, Field, Fits, Bytes, Total;
    FieldInMessage(2, VIDEO_FIELDS, values, e.data, 0);
    FieldInMessage(2, VIDEO_FIELDS, values, e.data, 1);
    FieldInMessage(2, VIDEO_FIELDS, values, e.data, 2);
    FieldInMessage(2, VIDEO_FIELDS, values, e.data, 3);
    FieldInMessage(2, VIDEO_FIELDS, values, e.data, 4);
    var packed := Pack(VIDEO_FIELDS, values);
    assert Encode(e)[40..] == Encode(e)[8..][32..] == (packed + e.data)[32..];
  }

  lemma VideoOffsets()
    ensures var w := VIDEO_FIELDS;
            && Total(w[..0]) == 0 && Total(w[..1]) == 8 && Total(w[..2]) == 16 && Total(w[..3]) == 20
            && Total(w[..4]) == 24 && Total(w) == 32
  {
    var w := VIDEO_FIELDS;
    TotalNext(w, 0);
    TotalNext(w, 1);
    TotalNext(w, 2);
    TotalNext(w, 3);
    TotalNext(w, 4);
    assert w[..0] == [] && w[..5] == w;
  }

  /** An audio message: 8-octet pts, time and length, then the data. */
  lemma {:induction false} AudioWire(e: Event)
    requires e.Audio? && Sendable(e)
    ensures var b := Encode(e);
            && |b| == 32 + |e.data| && b[32..] == e.data
            && Field(b, 8, 8) == e.pts && Field(b, 16, 8) == e.ntp && Field(b, 24, 8) == |e.data|
  {
    Pow256Values();
    var values := [e.pts, e.ntp, |e.data|];
    assert Fits(AUDIO_FIELDS, values);
    ValueIsSmall(e);
    MessageWire(MessageOf(e));
    AudioOffsets();
    hide Pack, Field, Fits, Bytes, Total;
    FieldInMessage(3, AUDIO_FIELDS, values, e.data, 0);
    FieldInMessage(3, AUDIO_FIELDS, values, e.data, 1);
    FieldInMessage(3, AUDIO_FIELDS, values, e.data, 2);
    var packed := Pack(AUDIO_FIELDS, values);
    assert Encode(e)[32..] == Encode(e)[8..][24..] == (packed + e.data)[24..];
  }

  lemma AudioOffsets()
    ensures var w := AUDIO_FIELDS;
            Total(w[..0]) == 0 && Total(w[..1]) == 8 && Total(w[..2]) == 16 && Total(w) == 24
  {
    var w := AUDIO_FIELDS;
    TotalNext(w, 0);
    TotalNext(w, 1);
    TotalNext(w, 2);
    assert w[..0] == [] && w[..3] == w;
  }

  /** Offsets of the metadata fields: two of 2 octets, then fourteen of 4. */
  lemma {:induction false} MetaOffset(i: nat)
    requires i <= 16
    ensures Total(META_FIELDS[..i]) == if i < 2 then 2 * i else 4 * (i - 1)
  {
    if i == 0 {
      assert META_FIELDS[..0] == [];
    } else {
      MetaOffset(i - 1);
      TotalNext(META_FIELDS, i - 1);
    }
  }

  /** The metadata fields in their order. */
  function MetaFields(m: Base, v: VideoMeta, a: AudioMeta): (r: seq<nat>)
    ensures |r| == 16
  {
    [m.wallClock, m.dropFrame, m.timecode] + [v.width, v.height, v.timescale, v.unit, v.gop, v.encoder]
    + [a.timescale, a.unit, a.rate, a.size, a.channel, a.bitrate, a.encoder]
  }

  lemma {:induction false} MetaInPlace(e: Event, i: nat)
    requires e.Meta? && i < 16
    ensures |Encode(e)| == 8 + Total(META_FIELDS) && 8 + Total(META_FIELDS[..i]) + META_FIELDS[i] <= |Encode(e)|
    ensures Field(Encode(e), 8 + Total(META_FIELDS[..i]), META_FIELDS[i]) == MetaFields(e.base, e.video, e.audio)[i]
  {
    hide Pack, Field, Fits, Total, Bytes, MetaValues, MetaFields;
    var values := MetaValues(e.base, e.video, e.audio);
    MetaListed(e);
    MetaFits(e.base, e.video, e.audio);
    RecordInMessage(1, META_FIELDS, values, i);
  }

  lemma MetaListed(e: Event)
    requires e.Meta?
    ensures MetaValues(e.base, e.video, e.audio) == MetaFields(e.base, e.video, e.audio)
  {
  }

  lemma {:induction false} RecordInMessage(kind: u32, widths: seq<nat>, values: seq<nat>, i: nat)
    requires Fits(widths, values) && i < |widths|
    ensures var b := Bytes(Message(kind, Pack(widths, values)));
            && |b| == 8 + Total(widths) && 8 + Total(widths[..i]) + widths[i] <= |b|
            && Field(b, 8 + Total(widths[..i]), widths[i]) == values[i]
  {
    assert Pack(widths, values) + [] == Pack(widths, values);
    FieldInMessage(kind, widths, values, [], i);
    hide Field, Fits;
  }

  /** A metadata message, field by field. */
  lemma {:induction false} MetaWire(e: Event, i: nat)
    requires e.Meta? && i < 16
    ensures |Encode(e)| == 68
    ensures var at, w := if i < 2 then 8 + 2 * i else 4 + 4 * i, if i < 2 then 2 else 4;
            Field(Encode(e), at, w) == MetaFields(e.base, e.video, e.audio)[i]
  {
    hide Pack, Field, Total, Encode, MetaFields;
    MetaInPlace(e, i);
    MetaOffset(i);
    MetaOffset(16);
    assert META_FIELDS[..16] == META_FIELDS;
    MetaWidth(i);
  }

  lemma MetaWidth(i: nat)
    requires i < 16
    ensures META_FIELDS[i] == if i < 2 then 2 else 4
  {
  }

  /** An exception: a nested message whose type is the code in two's complement and whose value is the
      text with its final zero. */
  lemma {:induction false} ExceptionWire(e: Event)
    requires e.Exception? && Sendable(e)
    ensures var b := Encode(e);
            && |b| == 17 + |e.text| && b[16..] == e.text + [0]
            && Field(b, 8, 4) == (if e.code < 0 then 0x1_0000_0000 + e.code else e.code)
            && Field(b, 12, 4) == |e.text| + 1
  {
    Pow256Values();
    var values := [Wrap(e.code), |e.text| + 1];
    assert Fits(HEADER, values);
    ValueIsSmall(e);
    MessageWire(MessageOf(e));
    assert HEADER[..0] == [] && HEADER[..1] == [4] && [4][1..] == [] && Total([4]) == 4;
    var packed := Pack(HEADER, values);
    assert |packed| == 8;
    hide Pack, Field, Fits, Bytes, Total;
    assert packed + e.text + [0] == packed + (e.text + [0]);
    FieldInMessage(7, HEADER, values, e.text + [0], 0);
    FieldInMessage(7, HEADER, values, e.text + [0], 1);
    assert Encode(e)[16..] == Encode(e)[8..][8..] == (packed + (e.text + [0]))[8..];
  }

  // ---------------------------------------------------------------- what is passed over

  /** A message of a type that is not in the list leads to no callback, and the messages behind it are
      read on. */
  lemma NoCallback(m: Message)
    requires m.kind == 0 || m.kind > 7
    ensures Dispatch(m) == None
  {
    hide Unpack, CString, MetaOf, Total;
  }

  lemma {:induction false} UnknownPassedOver(kind: u32, value: seq<byte>, tail: seq<byte>, turns: nat)
    requires (kind == 0 || kind > 7) && |value| < 0x1_0000_0000
    ensures Loop(Bytes(Message(kind, value)) + tail, turns + 1) == Loop(tail, turns)
  {
    hide Recv, Bytes, Dispatch;
    RecvWhole(Message(kind, value), tail);
    NoCallback(Message(kind, value));
  }

  /** A stream that does not begin with the greeting, or breaks off in it, hands out nothing. */
  lemma {:induction false} NoGreetingNoEvents(kind: u32, value: seq<byte>, tail: seq<byte>, turns: nat)
    requires |value| < 0x1_0000_0000
    ensures kind != 8 ==> Receive(Bytes(Message(kind, value)) + tail, turns) == []
    ensures kind == 8 ==> Receive(Bytes(Message(kind, value)) + tail, turns) == Loop(tail, turns)
  {
    RecvWhole(Message(kind, value), tail);
    hide Recv, Bytes, Loop;
  }
}
