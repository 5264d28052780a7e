/** The reader recovers from the pipe exactly the complete records that the connector wrote. */
module PipeProof {
  import opened Common
  import opened Pipe

  // ---------------------------------------------------------------- one message

  lemma HeaderFields(m: Message, tail: seq<byte>)
    requires |m.value| < 0x1_0000_0000
    ensures var b := Pack(HEADER, [m.kind, |m.value|]) + tail;
            b[..8] == Pack(HEADER, [m.kind, |m.value|]) && Unpack(HEADER, b[..8]) == [m.kind, |m.value|]
  {
    Pow256Values();
    var h := Pack(HEADER, [m.kind, |m.value|]);
    assert (h + tail)[..8] == h == h + [];
    assert Fits(HEADER, [m.kind, |m.value|]);
    hide Pack, Unpack;
    UnpackPack(HEADER, [m.kind, |m.value|], []);
  }

  /** A whole message is received, whatever follows it. */
  lemma RecvWhole(m: Message, tail: seq<byte>)
    requires |m.value| < 0x1_0000_0000
    ensures Recv(Bytes(m) + tail) == Some((m, tail))
  {
    var h := Pack(HEADER, [m.kind, |m.value|]);
    HeaderFields(m, m.value + tail);
    hide Pack, Unpack;
    var b := Bytes(m) + tail;
    assert b == h + (m.value + tail);
    assert b[8..8 + |m.value|] == m.value && b[8 + |m.value|..] == tail;
  }

  /** A message cut anywhere is not received. */
  lemma RecvCut(m: Message, n: nat)
    requires |m.value| < 0x1_0000_0000 && n < |Bytes(m)|
    ensures Recv(Bytes(m)[..n]) == None
  {
    if n >= 8 {
      var h := Pack(HEADER, [m.kind, |m.value|]);
      var part := m.value[..n - 8];
      HeaderFields(m, part);
      hide Pack, Unpack;
      assert Bytes(m)[..n] == h + part;
    }
  }

  lemma {:induction false} CStringOf(text: seq<byte>)
    requires 0 !in text
    ensures CString(text + [0]) == Some(text)
  {
    if text == [] {
      assert text + [0] == [0];
    } else {
      CStringOf(text[1..]);
      assert (text + [0])[0] == text[0] && (text + [0])[1..] == text[1..] + [0];
      assert [text[0]] + text[1..] == text;
    }
  }

  lemma MetaFits(b: Base, v: VideoMeta, a: AudioMeta)
    ensures Fits(META_FIELDS, MetaValues(b, v, a))
  {
    Pow256Values();
    hide Pow256;
    assert META_FIELDS[0] == META_FIELDS[1] == 2 && forall i :: 2 <= i < 16 ==> META_FIELDS[i] == 4;
  }

  lemma MetaOfValues(b: Base, v: VideoMeta, a: AudioMeta)
    requires Fits(META_FIELDS, MetaValues(b, v, a))
    ensures MetaOf(MetaValues(b, v, a)) == Meta(b, v, a)
  {
    hide Fits, Pow256;
  }

  lemma DispatchMeta(b: Base, v: VideoMeta, a: AudioMeta)
    ensures Dispatch(MessageOf(Meta(b, v, a))) == Some(Meta(b, v, a))
  {
    hide Pack, Unpack, Total, Pow256, MetaValues, MetaOf, Fits;
    MetaFits(b, v, a);
    MetaOfValues(b, v, a);
    var values := MetaValues(b, v, a);
    assert |values| == |META_FIELDS| by {
      FitsLength(META_FIELDS, values);
    }
    var packed := Pack(META_FIELDS, values);
    assert packed + [] == packed;
    UnpackPack(META_FIELDS, values, []);
  }

  lemma FitsLength(widths: seq<nat>, values: seq<nat>)
    requires Fits(widths, values)
    ensures |widths| == |values|
  {
  }

  lemma DispatchVideo(e: Event)
    requires e.Video? && Sendable(e)
    ensures Dispatch(MessageOf(e)) == Some(e)
  {
    Pow256Values();
    var values := [e.pts, e.ntp, e.frame, e.kind, |e.data|];
    assert Fits(VIDEO_FIELDS, values);
    hide Pack, Unpack, Total;
    UnpackPack(VIDEO_FIELDS, values, e.data);
    var b := Pack(VIDEO_FIELDS, values) + e.data;
    assert b[Total(VIDEO_FIELDS)..] == e.data && e.data[..|e.data|] == e.data;
  }

  lemma DispatchAudio(e: Event)
    requires e.Audio? && Sendable(e)
    ensures Dispatch(MessageOf(e)) == Some(e)
  {
    Pow256Values();
    var values := [e.pts, e.ntp, |e.data|];
    assert Fits(AUDIO_FIELDS, values);
    hide Pack, Unpack, Total;
    UnpackPack(AUDIO_FIELDS, values, e.data);
    var b := Pack(AUDIO_FIELDS, values) + e.data;
    assert b[Total(AUDIO_FIELDS)..] == e.data && e.data[..|e.data|] == e.data;
  }

  lemma DispatchException(e: Event)
    requires e.Exception? && Sendable(e)
    ensures Dispatch(MessageOf(e)) == Some(e)
  {
    Pow256Values();
    var values := [Wrap(e.code), |e.text| + 1];
    assert Fits(HEADER, values);
    hide Pack, Unpack, Total, CString;
    UnpackPack(HEADER, values, e.text + [0]);
    CStringOf(e.text);
    var b := Pack(HEADER, values) + e.text + [0];
    assert b == Pack(HEADER, values) + (e.text + [0]);
    assert b[Total(HEADER)..] == e.text + [0];
    assert Int32(Wrap(e.code)) == e.code;
  }

  lemma DispatchSignal(e: Event)
    requires e.BufferFull? || e.Disconnected? || e.Connected?
    ensures Dispatch(MessageOf(e)) == Some(e)
  {
    hide Pack, Unpack, Total, CString, MetaOf;
  }

  lemma {:induction false} TotalBound(widths: seq<nat>)
    requires forall i :: 0 <= i < |widths| ==> widths[i] <= 8
    ensures Total(widths) <= 8 * |widths|
  {
    if widths != [] {
      TotalBound(widths[1..]);
    }
  }

  /** The length of a record fits the 32-bit length field. */
  lemma ValueIsSmall(e: Event)
    requires Sendable(e)
    ensures |MessageOf(e).value| < 0x1_0000_0000
  {
    match e {
      case Meta(_, _, _) =>
        TotalBound(META_FIELDS);
        hide Total, Pack;
      case Video(_, _, _, _, _) =>
        assert VIDEO_FIELDS[1..] == [8, 4, 4, 8] && [8, 4, 4, 8][1..] == [4, 4, 8]
               && [4, 4, 8][1..] == [4, 8] && [4, 8][1..] == [8];
        assert Total(VIDEO_FIELDS) == 32;
      case Audio(_, _, _) =>
        assert AUDIO_FIELDS[1..] == [8, 8] && [8, 8][1..] == [8];
        assert Total(AUDIO_FIELDS) == 24;
      case Exception(_, _) =>
        assert Total(HEADER) == 8;
      case _ =>
    }
  }

  /** Every event the connector can send reaches its callback with every field as it was sent,
      negative exception codes and nested exception messages included. */
  lemma DispatchOfEvent(e: Event)
    requires Sendable(e)
    ensures Dispatch(MessageOf(e)) == Some(e)
    ensures |MessageOf(e).value| < 0x1_0000_0000
  {
    ValueIsSmall(e);
    hide MessageOf, Dispatch, Sendable;
    match e {
      case Meta(b, v, a) => DispatchMeta(b, v, a);
      case Video(_, _, _, _, _) => DispatchVideo(e);
      case Audio(_, _, _) => DispatchAudio(e);
      case Exception(_, _) => DispatchException(e);
      case _ => DispatchSignal(e);
    }
  }

  // ---------------------------------------------------------------- the whole pipe

  predicate AllSendable(es: seq<Event>) {
    forall i :: 0 <= i < |es| ==> Sendable(es[i])
  }

  /** How many records are complete within the first n bytes. */
  function Complete(es: seq<Event>, n: nat): (k: nat)
    ensures k <= |es|
  {
    if es == [] || n < |Encode(es[0])| then 0
    else 1 + Complete(es[1..], n - |Encode(es[0])|)
  }

  /** That is the longest prefix that fits. */
  lemma {:induction false} CompleteIsLongest(es: seq<Event>, n: nat)
    ensures var k := Complete(es, n);
            && |EncodeAll(es[..k])| <= n
            && (k < |es| ==> n < |EncodeAll(es[..k + 1])|)
  {
    hide Encode;
    var k := Complete(es, n);
    if k == 0 {
      if es != [] {
        assert es[..1][1..] == [];
        assert EncodeAll(es[..1]) == Encode(es[0]) + [];
      }
    } else {
      CompleteIsLongest(es[1..], n - |Encode(es[0])|);
      assert es[..k][1..] == es[1..][..k - 1];
      if k < |es| {
        assert es[..k + 1][1..] == es[1..][..k];
      }
    }
  }

  function Min(a: nat, b: nat): nat {
    if a < b then a else b
  }

  lemma {:induction false} LoopOfPrefix(es: seq<Event>, n: nat, turns: nat)
    requires AllSendable(es) && n <= |EncodeAll(es)|
    ensures Loop(EncodeAll(es)[..n], turns) == es[..Min(turns, Complete(es, n))]
    decreases turns
  {
    hide Dispatch, Recv, MessageOf, Bytes;
    if turns > 0 && es != [] {
      var e, rest := es[0], EncodeAll(es[1..]);
      var b := EncodeAll(es);
      DispatchOfEvent(e);
      if n < |Encode(e)| {
        RecvCut(MessageOf(e), n);
        assert b[..n] == Encode(e)[..n];
      } else {
        var m := n - |Encode(e)|;
        RecvWhole(MessageOf(e), rest[..m]);
        assert b[..n] == Encode(e) + rest[..m];
        LoopOfPrefix(es[1..], m, turns - 1);
        var k := Min(turns - 1, Complete(es[1..], m));
        assert [e] + es[1..][..k] == es[..k + 1];
      }
    } else if turns > 0 {
      RecvNothing();
    }
  }

  lemma RecvNothing()
    ensures Recv([]) == None
  {
  }

  lemma GreetingLength()
    ensures |Bytes(Message(CONNECTOR_OK, []))| == 8
  {
  }

  lemma ReceiveWithoutGreeting(es: seq<Event>, n: nat, turns: nat)
    requires n < 8 && n <= |Stream(es)|
    ensures Receive(Stream(es)[..n], turns) == []
  {
    GreetingLength();
    hide Total, Loop, Recv, Bytes, EncodeAll;
    var ok := Message(CONNECTOR_OK, []);
    RecvCut(ok, n);
    assert Stream(es)[..n] == Bytes(ok)[..n];
  }

  lemma ReceiveAfterGreeting(es: seq<Event>, n: nat, turns: nat)
    requires 8 <= n <= |Stream(es)|
    ensures n - 8 <= |EncodeAll(es)|
    ensures Receive(Stream(es)[..n], turns) == Loop(EncodeAll(es)[..n - 8], turns)
  {
    GreetingLength();
    hide Total, Loop, Recv, Bytes, EncodeAll;
    var ok, rest := Message(CONNECTOR_OK, []), EncodeAll(es);
    RecvWhole(ok, rest[..n - 8]);
    assert Stream(es)[..n] == Bytes(ok) + rest[..n - 8];
  }

  /** For every list of events and every point at which the pipe breaks off, the receive thread
      hands out exactly the events whose records are complete, in order and field for field (as
      many of them as it is left running for), and nothing of a partial one. */
  lemma ReceiveOfPrefix(es: seq<Event>, n: nat, turns: nat)
    requires AllSendable(es) && n <= |Stream(es)|
    ensures Receive(Stream(es)[..n], turns)
            == if n < 8 then [] else es[..Min(turns, Complete(es, n - 8))]
  {
    hide Receive, Stream, Loop, Complete, EncodeAll, AllSendable;
    if n < 8 {
      ReceiveWithoutGreeting(es, n, turns);
    } else {
      ReceiveAfterGreeting(es, n, turns);
      LoopOfPrefix(es, n - 8, turns);
    }
  }
}
