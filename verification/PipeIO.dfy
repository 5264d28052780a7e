/** Both ends of the message pipe as they work: the connector fills an allocated record field by
    field, the plugin loops over short reads into buffers. */
module PipeIO {
  import opened Common
  import opened Pipe

  // ---------------------------------------------------------------- filling a record

  function Flat(parts: seq<seq<byte>>): seq<byte> {
    if parts == [] then [] else parts[0] + Flat(parts[1..])
  }

  predicate Shaped(widths: seq<nat>, parts: seq<seq<byte>>) {
    |parts| == |widths| && forall i :: 0 <= i < |parts| ==> |parts[i]| == widths[i]
  }

  /** Where field k starts. */
  function Offset(widths: seq<nat>, k: nat): nat
    requires k <= |widths|
  {
    if k == 0 then 0 else widths[0] + Offset(widths[1..], k - 1)
  }

  /** Overwriting the bytes of field k. */
  lemma {:induction false} FlatUpdate(widths: seq<nat>, parts: seq<seq<byte>>, k: nat, p: seq<byte>)
    requires Shaped(widths, parts) && k < |parts| && |p| == widths[k]
    ensures var off := Offset(widths, k);
            && off + |p| <= |Flat(parts)|
            && Flat(parts[k := p]) == Flat(parts)[..off] + p + Flat(parts)[off + |p|..]
  {
    FlatFirst(parts);
    FlatFirst(parts[k := p]);
    hide Flat;
    if k == 0 {
      assert parts[k := p][1..] == parts[1..];
      UpdateFirst(parts[0], Flat(parts[1..]), p);
    } else {
      FlatUpdate(widths[1..], parts[1..], k - 1, p);
      assert parts[k := p][1..] == parts[1..][k - 1 := p];
      UpdateLater(parts[0], Flat(parts[1..]), Offset(widths[1..], k - 1), p);
    }
  }

  lemma FlatFirst(parts: seq<seq<byte>>)
    requires parts != []
    ensures Flat(parts) == parts[0] + Flat(parts[1..])
  {
  }

  lemma Associate(x: seq<byte>, y: seq<byte>, z: seq<byte>)
    ensures x + (y + z) == x + y + z
  {
  }

  lemma UpdateFirst(h: seq<byte>, g: seq<byte>, p: seq<byte>)
    requires |p| == |h|
    ensures p + g == (h + g)[..0] + p + (h + g)[|p|..]
  {
  }

  lemma UpdateLater(h: seq<byte>, g: seq<byte>, o: nat, p: seq<byte>)
    requires o + |p| <= |g|
    ensures h + (g[..o] + p + g[o + |p|..]) == (h + g)[..|h| + o] + p + (h + g)[|h| + o + |p|..]
  {
  }

  lemma {:induction false} FlatAppend(a: seq<seq<byte>>, b: seq<seq<byte>>)
    ensures Flat(a + b) == Flat(a) + Flat(b)
  {
    if a == [] {
      assert a + b == b;
    } else {
      FlatAppend(a[1..], b);
      assert (a + b)[0] == a[0] && (a + b)[1..] == a[1..] + b;
      Associate(a[0], Flat(a[1..]), Flat(b));
    }
  }

  function Fields(widths: seq<nat>, values: seq<nat>): (r: seq<seq<byte>>)
    requires |widths| == |values|
    ensures Shaped(widths, r)
  {
    if widths == [] then [] else [Le(values[0], widths[0])] + Fields(widths[1..], values[1..])
  }

  lemma {:induction false} FlatFields(widths: seq<nat>, values: seq<nat>)
    requires |widths| == |values|
    ensures Flat(Fields(widths, values)) == Pack(widths, values)
  {
    if widths != [] {
      FlatFields(widths[1..], values[1..]);
      assert Fields(widths, values)[1..] == Fields(widths[1..], values[1..]);
    }
  }

  lemma {:induction false} FieldsAt(widths: seq<nat>, values: seq<nat>, i: nat)
    requires |widths| == |values| && i < |widths|
    ensures Fields(widths, values)[i] == Le(values[i], widths[i])
  {
    if i > 0 {
      FieldsAt(widths[1..], values[1..], i - 1);
    }
  }

  function Cut(widths: seq<nat>, b: seq<byte>): (r: seq<seq<byte>>)
    requires |b| == Total(widths)
    ensures Shaped(widths, r)
  {
    if widths == [] then [] else [b[..widths[0]]] + Cut(widths[1..], b[widths[0]..])
  }

  lemma {:induction false} FlatCut(widths: seq<nat>, b: seq<byte>)
    requires |b| == Total(widths)
    ensures Flat(Cut(widths, b)) == b
  {
    if widths != [] {
      FlatCut(widths[1..], b[widths[0]..]);
      assert Cut(widths, b)[1..] == Cut(widths[1..], b[widths[0]..]);
    }
  }

  /** A malloc'ed record with packed fields of the given widths; its initial contents are arbitrary. */
  class Record {
    const widths: seq<nat>
    const buf: array<byte>
    ghost var parts: seq<seq<byte>>

    ghost predicate Valid() reads this, buf {
      Shaped(widths, parts) && buf[..] == Flat(parts)
    }

    constructor (widths: seq<nat>)
      ensures Valid() && fresh(buf) && this.widths == widths
    {
      this.widths := widths;
      buf := new byte[Total(widths)];
      new;
      parts := Cut(widths, buf[..]);
      FlatCut(widths, buf[..]);
    }

    /** `record->field = v`, little-endian. */
    method Put(k: nat, v: nat)
      requires Valid() && k < |widths|
      modifies this`parts, buf
      ensures Valid() && parts == old(parts)[k := Le(v, widths[k])]
    {
      PutBytes(k, Le(v, widths[k]));
    }

    /** memcpy into field k. */
    method PutBytes(k: nat, data: seq<byte>)
      requires Valid() && k < |widths| && |data| == widths[k]
      modifies this`parts, buf
      ensures Valid() && parts == old(parts)[k := data]
    {
      var off := Offset(widths, k);
      FlatUpdate(widths, parts, k, data);
      hide Flat;
      Copy(buf, off, data);
      parts := parts[k := data];
    }
  }

  // ---------------------------------------------------------------- the connector's callbacks

  /** A record whose fields are a header, packed fields and trailing bytes. */
  lemma RecordBytes(kind: u32, length: nat, widths: seq<nat>, values: seq<nat>, tail: seq<seq<byte>>)
    requires |widths| == |values|
    ensures Flat(Fields(HEADER + widths, [kind, length] + values) + tail)
            == Pack(HEADER, [kind, length]) + (Pack(widths, values) + Flat(tail))
  {
    assert HEADER + widths == [4] + ([4] + widths) && [kind, length] + values == [kind] + ([length] + values);
    FlatAppend(Fields(HEADER + widths, [kind, length] + values), tail);
    FlatFields(HEADER + widths, [kind, length] + values);
    PackAppend(HEADER, widths, [kind, length], values);
  }

  /** A filled record is the message with these fields, followed by the last parts. */
  lemma ImageOf(kind: u32, widths: seq<nat>, values: seq<nat>, tail: seq<seq<byte>>, parts: seq<seq<byte>>)
    requires |widths| == |values| && |parts| == 2 + |widths| + |tail|
    requires parts[0] == Le(kind, 4) && parts[1] == Le(|Pack(widths, values) + Flat(tail)|, 4)
    requires forall i :: 0 <= i < |widths| ==> parts[i + 2] == Le(values[i], widths[i])
    requires parts[|widths| + 2..] == tail
    ensures Flat(parts) == Bytes(Message(kind, Pack(widths, values) + Flat(tail)))
  {
    var length := |Pack(widths, values) + Flat(tail)|;
    var ws, vs := HEADER + widths, [kind, length] + values;
    hide Le, Flat, Pack;
    forall i | 0 <= i < |ws| ensures parts[i] == Fields(ws, vs)[i] {
      FieldsAt(ws, vs, i);
    }
    hide Fields;
    assert parts == Fields(ws, vs) + tail;
    RecordBytes(kind, length, widths, values, tail);
  }

  lemma {:induction false} PackAppend(a: seq<nat>, b: seq<nat>, x: seq<nat>, y: seq<nat>)
    requires |a| == |x| && |b| == |y|
    ensures Pack(a + b, x + y) == Pack(a, x) + Pack(b, y)
  {
    if a == [] {
      assert a + b == b && x + y == y;
    } else {
      assert (a + b)[1..] == a[1..] + b && (x + y)[1..] == x[1..] + y;
      PackAppend(a[1..], b, x[1..], y);
      hide Le;
    }
  }

  /** on_general_message, also used for the greeting. */
  method WriteSignal(kind: u32) returns (out: seq<byte>)
    ensures out == Bytes(Message(kind, []))
  {
    var msg := new Record(HEADER);
    msg.Put(1, 0);
    msg.Put(0, kind);
    out := msg.buf[..];
    assert msg.parts == Fields(HEADER, [kind, 0]);
    FlatFields(HEADER, [kind, 0]);
  }

  method WriteVideo(e: Event) returns (out: seq<byte>)
    requires e.Video? && Sendable(e)
    ensures out == Encode(e)
  {
    var msg := new Record([4, 4, 8, 8, 4, 4, 8, |e.data|]);
    msg.Put(0, VIDEO);
    msg.Put(1, 32 + |e.data|);
    msg.Put(4, e.frame);
    msg.Put(3, e.ntp);
    msg.Put(2, e.pts);
    msg.Put(5, e.kind);
    msg.Put(6, |e.data|);
    msg.PutBytes(7, e.data);
    out := msg.buf[..];
    VideoImage(e, msg.parts);
  }

  lemma VideoImage(e: Event, parts: seq<seq<byte>>)
    requires e.Video? && Sendable(e)
    requires parts == [Le(VIDEO, 4), Le(32 + |e.data|, 4), Le(e.pts, 8), Le(e.ntp, 8), Le(e.frame, 4),
                       Le(e.kind, 4), Le(|e.data|, 8), e.data]
    ensures Flat(parts) == Encode(e)
  {
    var values := [e.pts, e.ntp, e.frame, e.kind, |e.data|];
    hide Fields, Le, Flat, Pack;
    ImageOf(VIDEO, VIDEO_FIELDS, values, [e.data], parts);
  }

  method WriteAudio(e: Event) returns (out: seq<byte>)
    requires e.Audio? && Sendable(e)
    ensures out == Encode(e)
  {
    var msg := new Record([4, 4, 8, 8, 8, |e.data|]);
    msg.Put(0, AUDIO);
    msg.Put(1, 24 + |e.data|);
    msg.Put(3, e.ntp);
    msg.Put(2, e.pts);
    msg.Put(4, |e.data|);
    msg.PutBytes(5, e.data);
    out := msg.buf[..];
    AudioImage(e, msg.parts);
  }

  lemma AudioImage(e: Event, parts: seq<seq<byte>>)
    requires e.Audio? && Sendable(e)
    requires parts == [Le(AUDIO, 4), Le(24 + |e.data|, 4), Le(e.pts, 8), Le(e.ntp, 8), Le(|e.data|, 8), e.data]
    ensures Flat(parts) == Encode(e)
  {
    var values := [e.pts, e.ntp, |e.data|];
    hide Fields, Le, Flat, Pack;
    ImageOf(AUDIO, AUDIO_FIELDS, values, [e.data], parts);
  }

  method WriteException(e: Event) returns (out: seq<byte>)
    requires e.Exception? && Sendable(e)
    ensures out == Encode(e)
  {
    var n := |e.text|;
    var msg := new Record([4, 4, 4, 4, n + 1]);
    msg.Put(0, EXCEPTION);
    msg.Put(1, 8 + n + 1);
    msg.Put(3, n + 1);
    msg.Put(2, Wrap(e.code));
    msg.PutBytes(4, e.text + [0]);
    out := msg.buf[..];
    ExceptionImage(e, msg.parts);
  }

  lemma ExceptionImage(e: Event, parts: seq<seq<byte>>)
    requires e.Exception? && Sendable(e)
    requires parts == [Le(EXCEPTION, 4), Le(8 + |e.text| + 1, 4), Le(Wrap(e.code), 4), Le(|e.text| + 1, 4),
        e.text + [0]]
    ensures Flat(parts) == Encode(e)
  {
    var values := [Wrap(e.code), |e.text| + 1];
    var end := e.text + [0];
    assert Flat([end]) == end;
    hide Fields, Le, Flat, Pack;
    ImageOf(EXCEPTION, HEADER, values, [end], parts);
    assert Pack(HEADER, values) + end == Pack(HEADER, values) + e.text + [0];
  }

  method WriteMeta(e: Event) returns (out: seq<byte>)
    requires e.Meta?
    ensures out == Encode(e)
  {
    var msg := new Record(HEADER + META_FIELDS);
    hide Pack, Flat, Le, Encode, Fields;
    msg.Put(0, META);
    msg.Put(1, 60);
    PutAudioMeta(msg, e.audio);
    PutVideoMeta(msg, e.video);
    PutBase(msg, e.base);
    out := msg.buf[..];
    MetaImage(e, msg.parts);
  }

  method PutAudioMeta(msg: Record, a: AudioMeta)
    requires msg.Valid() && msg.widths == HEADER + META_FIELDS
    modifies msg`parts, msg.buf
    ensures msg.Valid()
    ensures msg.parts[..11] == old(msg.parts[..11])
    ensures msg.parts[11..] == [Le(a.timescale, 4), Le(a.unit, 4), Le(a.rate, 4), Le(a.size, 4),
                                Le(a.channel, 4), Le(a.bitrate, 4), Le(a.encoder, 4)]
  {
    hide Flat, Le;
    msg.Put(16, a.bitrate);
    msg.Put(15, a.channel);
    msg.Put(17, a.encoder);
    msg.Put(13, a.rate);
    msg.Put(14, a.size);
    msg.Put(11, a.timescale);
    msg.Put(12, a.unit);
  }

  method PutVideoMeta(msg: Record, v: VideoMeta)
    requires msg.Valid() && msg.widths == HEADER + META_FIELDS
    modifies msg`parts, msg.buf
    ensures msg.Valid()
    ensures msg.parts[..5] == old(msg.parts[..5]) && msg.parts[11..] == old(msg.parts[11..])
    ensures msg.parts[5..11] == [Le(v.width, 4), Le(v.height, 4), Le(v.timescale, 4), Le(v.unit, 4),
                                 Le(v.gop, 4), Le(v.encoder, 4)]
  {
    hide Flat, Le;
    msg.Put(10, v.encoder);
    msg.Put(9, v.gop);
    msg.Put(6, v.height);
    msg.Put(7, v.timescale);
    msg.Put(8, v.unit);
    msg.Put(5, v.width);
  }

  method PutBase(msg: Record, b: Base)
    requires msg.Valid() && msg.widths == HEADER + META_FIELDS
    modifies msg`parts, msg.buf
    ensures msg.Valid()
    ensures msg.parts[..2] == old(msg.parts[..2]) && msg.parts[5..] == old(msg.parts[5..])
    ensures msg.parts[2..5] == [Le(b.wallClock, 2), Le(b.dropFrame, 2), Le(b.timecode, 4)]
  {
    hide Flat, Le;
    msg.Put(2, b.wallClock);
    msg.Put(3, b.dropFrame);
    msg.Put(4, b.timecode);
  }

  /** The fields of a filled metadata record. */
  predicate MetaFilled(e: Event, parts: seq<seq<byte>>)
    requires e.Meta?
  {
    var b, v, a := e.base, e.video, e.audio;
    && |parts| == 18
    && parts[..2] == [Le(META, 4), Le(60, 4)]
    && parts[2..5] == [Le(b.wallClock, 2), Le(b.dropFrame, 2), Le(b.timecode, 4)]
    && parts[5..11] == [Le(v.width, 4), Le(v.height, 4), Le(v.timescale, 4), Le(v.unit, 4), Le(v.gop, 4),
        Le(v.encoder, 4)]
    && parts[11..] == [Le(a.timescale, 4), Le(a.unit, 4), Le(a.rate, 4), Le(a.size, 4),
                       Le(a.channel, 4), Le(a.bitrate, 4), Le(a.encoder, 4)]
  }

  lemma MetaPart(e: Event, parts: seq<seq<byte>>, i: nat)
    requires e.Meta? && MetaFilled(e, parts) && i < 16
    ensures parts[i + 2] == Le(MetaValues(e.base, e.video, e.audio)[i], META_FIELDS[i])
  {
    hide Le;
    if i < 3 {
      assert parts[2..5][i] == parts[i + 2];
    } else if i < 9 {
      assert parts[5..11][i - 3] == parts[i + 2];
    } else {
      assert parts[11..][i - 9] == parts[i + 2];
    }
  }

  lemma MetaImage(e: Event, parts: seq<seq<byte>>)
    requires e.Meta? && MetaFilled(e, parts)
    ensures Flat(parts) == Encode(e)
  {
    hide Fields, Le, Pack, Total;
    var values := MetaValues(e.base, e.video, e.audio);
    assert Flat([]) == [];
    hide Flat;
    MetaTotal();
    assert parts[0] == parts[..2][0] && parts[1] == parts[..2][1] && parts[18..] == [];
    forall i | 0 <= i < 16 ensures parts[i + 2] == Le(values[i], META_FIELDS[i]) {
      MetaPart(e, parts, i);
    }
    assert Pack(META_FIELDS, values) + [] == Pack(META_FIELDS, values);
    hide MetaFilled, MetaValues;
    ImageOf(META, META_FIELDS, values, [], parts);
  }

  lemma {:induction false} TotalOfFours(widths: seq<nat>)
    requires forall i :: 0 <= i < |widths| ==> widths[i] == 4
    ensures Total(widths) == 4 * |widths|
  {
    if widths != [] {
      TotalOfFours(widths[1..]);
    }
  }

  lemma MetaTotal()
    ensures Total(META_FIELDS) == 60
  {
    var fours := META_FIELDS[2..];
    TotalOfFours(fours);
    assert META_FIELDS[1..][1..] == fours;
    assert Total(META_FIELDS[1..]) == 2 + Total(fours);
  }

  /** What each callback of the connector puts on the pipe. */
  method WriteEvent(e: Event) returns (out: seq<byte>)
    requires Sendable(e)
    ensures out == Encode(e)
  {
    match e {
      case Meta(_, _, _) => out := WriteMeta(e);
      case Video(_, _, _, _, _) => out := WriteVideo(e);
      case Audio(_, _, _) => out := WriteAudio(e);
      case BufferFull => out := WriteSignal(BUFFER_FULL);
      case Disconnected => out := WriteSignal(DISCONNECT);
      case Connected => out := WriteSignal(CONNECTED);
      case Exception(_, _) => out := WriteException(e);
    }
  }

  // ---------------------------------------------------------------- reading

  /** The reading end of the pipe: the bytes still to come before it breaks off, and a schedule
      that says how short each read falls. */
  class PipeEnd {
    const cuts: nat -> nat
    var rest: seq<byte>
    var calls: nat

    constructor (rest: seq<byte>, cuts: nat -> nat)
      ensures this.rest == rest && this.cuts == cuts
    {
      this.rest, this.cuts, calls := rest, cuts, 0;
    }

    /** os_process_pipe_read: at least one byte while there are any, at most n. */
    method Read(dst: array<byte>, pos: nat, n: nat) returns (cur: nat)
      requires pos + n <= dst.Length
      modifies this`rest, this`calls, dst
      ensures cur <= n && cur <= |old(rest)|
      ensures cur == 0 <==> n == 0 || old(rest) == []
      ensures rest == old(rest)[cur..]
      ensures dst[..] == old(dst[..])[..pos] + old(rest)[..cur] + old(dst[..])[pos + cur..]
    {
      var most := if n < |rest| then n else |rest|;
      if most == 0 {
        return 0;
      }
      cur := 1 + cuts(calls) % most;
      calls := calls + 1;
      Copy(dst, pos, rest[..cur]);
      rest := rest[cur..];
    }

    /** os_process_pipe_read_retry: whatever the schedule, the buffer gets the next bytes, all of
        them unless the pipe breaks off. */
    method ReadRetry(dst: array<byte>) returns (pos: nat)
      modifies this`rest, this`calls, dst
      ensures pos == (if dst.Length <= |old(rest)| then dst.Length else |old(rest)|)
      ensures dst[..pos] == old(rest)[..pos]
      ensures rest == old(rest)[pos..]
    {
      pos := 0;
      while pos < dst.Length
        invariant pos <= dst.Length && pos <= |old(rest)|
        invariant rest == old(rest)[pos..]
        invariant dst[..pos] == old(rest)[..pos]
      {
        ghost var before := dst[..];
        var cur := Read(dst, pos, dst.Length - pos);
        if cur == 0 {
          break;
        }
        assert dst[..pos + cur] == before[..pos] + old(rest)[pos..][..cur];
        assert old(rest)[..pos + cur] == old(rest)[..pos] + old(rest)[pos..][..cur];
        assert old(rest)[pos..][cur..] == old(rest)[pos + cur..];
        pos := pos + cur;
      }
    }

    /** msg_recv. */
    method ReceiveMessage() returns (m: Option<Message>)
      modifies this`rest, this`calls
      ensures Recv(old(rest)).None? ==> m == None
      ensures Recv(old(rest)).Some? ==> m == Some(Recv(old(rest)).value.0) && rest == Recv(old(rest)).value.1
    {
      hide Unpack, UnLe;
      var header := new byte[8];
      var got := ReadRetry(header);
      if got != 8 {
        return None;
      }
      assert header[..] == header[..8] == old(rest)[..8];
      Pow256Values();
      var fields := Unpack(HEADER, header[..]);
      if fields[1] == 0 {
        assert old(rest)[8..8] == [];
        return Some(Message(fields[0], []));
      }
      var value := new byte[fields[1]];
      got := ReadRetry(value);
      if got != fields[1] {
        return None;
      }
      assert value[..] == old(rest)[8..][..fields[1]] == old(rest)[8..8 + fields[1]];
      assert old(rest)[8..][fields[1]..] == old(rest)[8 + fields[1]..];
      m := Some(Message(fields[0], value[..]));
    }

    /** ReceiveThread: the events handed to the callbacks, whatever the schedule of short reads;
        running is found set at most `turns` times. */
    method ReceiveThread(turns: nat) returns (events: seq<Event>)
      modifies this`rest, this`calls
      ensures events == Receive(old(rest), turns)
    {
      hide Recv, Dispatch;
      events := [];
      var first := ReceiveMessage();
      if first.None? || first.value.kind != CONNECTOR_OK {
        return;
      }
      ghost var whole := rest;
      var left := turns;
      assert Loop(whole, turns) == events + Loop(rest, left);
      while left > 0
        invariant Loop(whole, turns) == events + Loop(rest, left)
      {
        var msg := ReceiveMessage();
        if msg.None? {
          break;
        }
        var event := Dispatch(msg.value);
        if event.Some? {
          assert forall more :: events + ([event.value] + more) == events + [event.value] + more;
          events := events + [event.value];
        }
        left := left - 1;
      }
    }
  }
}
