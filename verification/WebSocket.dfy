/** The RFC 6455 client of src/cameractrl/zc_ws_client.cpp: the incremental frame parser, the
    masked frame writer and the hand-over from the HTTP upgrade to frames. */
module WebSocket {
  import opened Common

  // ---------------------------------------------------------------- masking

  /** Exclusive or of the low n bits. */
  function Xor(a: nat, b: nat, n: nat): (r: nat)
    ensures r < Pow2(n)
    decreases n, a
  {
    if n == 0 then 0 else 2 * Xor(a / 2, b / 2, n - 1) + (a + b) % 2
  }

  lemma {:induction false} XorTwice(a: nat, b: nat, n: nat)
    requires a < Pow2(n)
    ensures Xor(Xor(a, b, n), b, n) == a
  {
    if n > 0 {
      XorTwice(a / 2, b / 2, n - 1);
      LowBit(a, b, Xor(a / 2, b / 2, n - 1));
    }
  }

  lemma LowBit(a: nat, b: nat, h: nat)
    ensures (2 * h + (a + b) % 2) / 2 == h && (2 * h + (a + b) % 2 + b) % 2 == a % 2
  {
  }

  function XorByte(a: byte, b: byte): byte {
    assert Pow2(8) == 256;
    Xor(a, b, 8)
  }

  lemma XorByteTwice(a: byte, b: byte)
    ensures XorByte(XorByte(a, b), b) == a
  {
    assert Pow2(8) == 256;
    XorTwice(a, b, 8);
  }

  /** Bit k of a number: halve k times, then odd or even. */
  function Bit(a: nat, k: nat): nat
    decreases k
  {
    if k == 0 then a % 2 else Bit(a / 2, k - 1)
  }

  /** Each bit is set exactly when it is set in one of the two operands. */
  lemma {:induction false} XorBit(a: nat, b: nat, n: nat, k: nat)
    requires k < n
    ensures Bit(Xor(a, b, n), k) == 1 <==> Bit(a, k) != Bit(b, k)
    ensures Bit(a, k) <= 1 && Bit(b, k) <= 1
    decreases n
  {
    var h := Xor(a / 2, b / 2, n - 1);
    assert Xor(a, b, n) == 2 * h + (a + b) % 2;
    if k > 0 {
      assert (2 * h + (a + b) % 2) / 2 == h;
      XorBit(a / 2, b / 2, n - 1, k - 1);
    }
  }

  type key = k: seq<byte> | |k| == 4 witness [0, 0, 0, 0]

  /** Section 5.3: octet i of the data combined with octet i modulo 4 of the key. */
  function Mask(data: seq<byte>, k: key): (r: seq<byte>)
    ensures |r| == |data|
  {
    seq(|data|, i requires 0 <= i < |data| => XorByte(data[i], k[i % 4]))
  }

  lemma MaskTwice(data: seq<byte>, k: key)
    ensures Mask(Mask(data, k), k) == data
  {
    forall i | 0 <= i < |data| ensures Mask(Mask(data, k), k)[i] == data[i] {
      XorByteTwice(data[i], k[i % 4]);
    }
  }

  /** Every bit of every octet: set exactly when it differs between the octet and its key octet. */
  lemma MaskBits(data: seq<byte>, k: key, i: nat, j: nat)
    requires i < |data| && j < 8
    ensures Bit(Mask(data, k)[i], j) == 1 <==> Bit(data[i], j) != Bit(k[i % 4], j)
  {
    assert Pow2(8) == 256;
    XorBit(data[i], k[i % 4], 8, j);
  }

  /** The masking loop shared by reader and writer. */
  method ApplyMask(data: seq<byte>, k: key) returns (r: seq<byte>)
    ensures r == Mask(data, k)
  {
    r := [];
    for i := 0 to |data|
      invariant |r| == i
      invariant forall j :: 0 <= j < i ==> r[j] == XorByte(data[j], k[j % 4])
    {
      r := r + [XorByte(data[i], k[i % 4])];
    }
  }

  // ---------------------------------------------------------------- big-endian numbers

  method ReadBE(s: seq<byte>) returns (n: nat)
    ensures n == BE(s)
  {
    n := 0;
    for i := 0 to |s|
      invariant n == BE(s[..i])
    {
      assert s[..i + 1][..i] == s[..i];
      n := 256 * n + s[i];
    }
    assert s[..|s|] == s;
  }

  // ---------------------------------------------------------------- one frame

  datatype Frame = Frame(fin: bool, opcode: nat, payload: seq<byte>)

  /** Outcome of looking at the front of the buffer. `Unrepresentable` is a length whose
      conversion to `int` is negative or overflows when the header size is added. */
  datatype Parse = Incomplete | Unrepresentable | Complete(frame: Frame, size: nat)

  function HeaderLength(b1: byte): nat {
    if b1 % 128 == 126 then 4 else if b1 % 128 == 127 then 10 else 2
  }

  function MaskLength(b1: byte): nat {
    if b1 >= 128 then 4 else 0
  }

  /** The payload length the header declares. */
  function DeclaredLength(buf: seq<byte>): nat
    requires |buf| >= 2 && |buf| >= HeaderLength(buf[1])
  {
    if HeaderLength(buf[1]) == 2 then buf[1] % 128 else BE(buf[2..HeaderLength(buf[1])])
  }

  const INT_MAX: int := 0x7FFF_FFFF

  function ParseFrame(buf: seq<byte>): (r: Parse)
    ensures r.Complete? ==> 2 <= r.size <= |buf|
  {
    if |buf| < 2 || |buf| < HeaderLength(buf[1]) then Incomplete
    else
      var start := HeaderLength(buf[1]) + MaskLength(buf[1]);
      var len := Int32(DeclaredLength(buf));
      if len < 0 || start + len > INT_MAX then Unrepresentable
      else if |buf| < start + len then Incomplete
      else
        var raw := buf[start..start + len];
        var payload := if buf[1] >= 128 then Mask(raw, buf[start - 4..start]) else raw;
        Complete(Frame(buf[0] >= 128, buf[0] % 16, payload), start + len)
  }

  lemma TooShort(buf: seq<byte>)
    ensures |buf| < 2 ==> ParseFrame(buf) == Incomplete
  {
  }

  /** The length field: None until it has arrived. */
  method ReadLength(buf: seq<byte>) returns (r: Option<nat>)
    requires |buf| >= 2
    ensures r == if |buf| < HeaderLength(buf[1]) then None else Some(DeclaredLength(buf))
  {
    var len := buf[1] % 128;
    if len == 126 {
      if |buf| < 4 {
        return None;
      }
      len := ReadBE(buf[2..4]);
    } else if len == 127 {
      if |buf| < 10 {
        return None;
      }
      len := ReadBE(buf[2..10]);
    }
    return Some(len);
  }

  /** The header and payload decoding of the receive loop. */
  method TakeFrame(buf: seq<byte>) returns (r: Parse)
    requires |buf| >= 2
    ensures r == ParseFrame(buf)
  {
    hide BE, Mask, Int32, DeclaredLength;
    var len := ReadLength(buf);
    if len.None? {
      return Incomplete;
    }
    var headerLen := HeaderLength(buf[1]);
    var start := headerLen + MaskLength(buf[1]);
    var n := start + Int32(len.value);
    if n < start || n > INT_MAX {
      return Unrepresentable;
    }
    if |buf| < n {
      return Incomplete;
    }
    var payload := buf[start..n];
    if buf[1] >= 128 {
      payload := ApplyMask(payload, buf[headerLen..headerLen + 4]);
    }
    return Complete(Frame(buf[0] >= 128, buf[0] % 16, payload), n);
  }

  /** What a parser makes of a buffer that keeps the declared length as it is. */
  function UnboundedParse(buf: seq<byte>): Parse {
    if |buf| < 2 || |buf| < HeaderLength(buf[1]) then Incomplete
    else
      var start := HeaderLength(buf[1]) + MaskLength(buf[1]);
      var len := DeclaredLength(buf);
      if |buf| < start + len then Incomplete
      else
        var raw := buf[start..start + len];
        var payload := if buf[1] >= 128 then Mask(raw, buf[start - 4..start]) else raw;
        Complete(Frame(buf[0] >= 128, buf[0] % 16, payload), start + len)
  }

  /** Once a header has arrived, the conversion of its length to `int` is harmless, whatever
      arrives behind it, if and only if header and payload together stay within INT_MAX. */
  lemma ConversionExact(buf: seq<byte>)
    requires |buf| >= 2 && |buf| >= HeaderLength(buf[1])
    ensures (forall more: seq<byte> :: ParseFrame(buf + more) == UnboundedParse(buf + more))
            <==> HeaderLength(buf[1]) + MaskLength(buf[1]) + DeclaredLength(buf) <= INT_MAX
  {
    hide BE, Mask;
    var start, len := HeaderLength(buf[1]) + MaskLength(buf[1]), DeclaredLength(buf);
    if start + len <= INT_MAX {
      forall more: seq<byte> ensures ParseFrame(buf + more) == UnboundedParse(buf + more) {
        HeaderStays(buf, more);
      }
    } else {
      var more := Zeros(start + 0x8000_0000);
      HeaderStays(buf, more);
      assert ParseFrame(buf + more) != UnboundedParse(buf + more);
    }
  }

  lemma HeaderStays(buf: seq<byte>, more: seq<byte>)
    requires |buf| >= 2 && |buf| >= HeaderLength(buf[1])
    ensures (buf + more)[1] == buf[1] && DeclaredLength(buf + more) == DeclaredLength(buf)
  {
    SliceOfPrefix(buf, more, 2, HeaderLength(buf[1]));
  }

  lemma SliceOfPrefix(a: seq<byte>, b: seq<byte>, i: nat, j: nat)
    requires i <= j <= |a|
    ensures (a + b)[i..j] == a[i..j]
  {
  }

  lemma ParseFrameAppend(a: seq<byte>, b: seq<byte>)
    requires !ParseFrame(a).Incomplete?
    ensures ParseFrame(a + b) == ParseFrame(a)
  {
    hide BE, Mask, Int32;
    var h := HeaderLength(a[1]);
    var start := h + MaskLength(a[1]);
    SliceOfPrefix(a, b, 2, h);
    assert DeclaredLength(a + b) == DeclaredLength(a);
    hide DeclaredLength;
    if ParseFrame(a).Complete? {
      var n := ParseFrame(a).size;
      SliceOfPrefix(a, b, start, n);
      SliceOfPrefix(a, b, h, start);
    }
  }

  // ---------------------------------------------------------------- effects of frames

  /** `Close` is the disconnectFromHost of the first close frame. `LengthOverflow` marks a length
      that does not survive the conversion to `int`; nothing is said about what comes after it. */
  datatype Effect =
    | Text(payload: seq<byte>)
    | FragmentedText
    | Pong(payload: seq<byte>)
    | Close
    | Connected
    | HandshakeTooLarge
    | HandshakeFailed
    | LengthOverflow

  function EffectOf(f: Frame): seq<Effect> {
    if f.opcode == 1 then [if f.fin then Text(f.payload) else FragmentedText]
    else if f.opcode == 8 then [Close]
    else if f.opcode == 9 then [Pong(f.payload)]
    else []
  }

  /** What is left of the effects once the socket is closing: writeFrame returns at once, and there
      is no connection left to close. */
  function Heard(open: bool, es: seq<Effect>): seq<Effect> {
    if open || es == [] then es
    else (if es[0].Pong? || es[0].Close? then [] else [es[0]]) + Heard(open, es[1..])
  }

  lemma {:induction false} HeardAppend(open: bool, a: seq<Effect>, b: seq<Effect>)
    ensures Heard(open, a + b) == Heard(open, a) + Heard(open, b)
  {
    if a == [] {
      assert a + b == b;
    } else {
      HeardAppend(open, a[1..], b);
      assert (a + b)[0] == a[0] && (a + b)[1..] == a[1..] + b;
      var head := if a[0].Pong? || a[0].Close? then [] else [a[0]];
      Associate(head, Heard(open, a[1..]), Heard(open, b));
    }
  }

  datatype Drained = Drained(effects: seq<Effect>, rest: seq<byte>, closed: bool, lost: bool)

  /** One call of handleIncoming on the whole buffer, on an open socket: frames are consumed up to
      an incomplete one, or up to and including a close frame. */
  function Drain(buf: seq<byte>): Drained
    decreases |buf|
  {
    match ParseFrame(buf)
    case Incomplete => Drained([], buf, false, false)
    case Unrepresentable => Drained([LengthOverflow], buf, false, true)
    case Complete(f, n) =>
      if f.opcode == 8 then Drained(EffectOf(f), buf[n..], true, false)
      else var d := Drain(buf[n..]); d.(effects := EffectOf(f) + d.effects)
  }

  /** Bytes that arrive later change nothing up to a close frame, and otherwise are parsed as if
      they had been there from the start. */
  lemma {:induction false} DrainAppend(a: seq<byte>, b: seq<byte>)
    ensures var d := Drain(a);
            Drain(a + b) == if d.closed || d.lost then d.(rest := d.rest + b)
                            else var e := Drain(d.rest + b); e.(effects := d.effects + e.effects)
    decreases |a|
  {
    hide ParseFrame, EffectOf;
    var p := ParseFrame(a);
    if !p.Incomplete? {
      ParseFrameAppend(a, b);
    }
    if p.Complete? {
      assert (a + b)[p.size..] == a[p.size..] + b;
      if p.frame.opcode != 8 {
        DrainAppend(a[p.size..], b);
      }
    }
  }

  lemma DrainNothing()
    ensures Drain([]) == Drained([], [], false, false)
  {
  }

  lemma {:induction false} DrainStops(a: seq<byte>)
    requires !Drain(a).closed && !Drain(a).lost
    ensures ParseFrame(Drain(a).rest) == Incomplete
    decreases |a|
  {
    if ParseFrame(a).Complete? {
      DrainStops(a[ParseFrame(a).size..]);
    }
  }

  // ---------------------------------------------------------------- the upgrade

  const HANDSHAKE_LIMIT: nat := 16384

  predicate BlankLineAt(s: seq<byte>, i: nat) {
    i + 4 <= |s| && s[i] == 13 && s[i + 1] == 10 && s[i + 2] == 13 && s[i + 3] == 10
  }

  /** indexOf("\r\n\r\n"). */
  function BlankLine(s: seq<byte>, i: nat): (r: Option<nat>)
    ensures r.Some? ==> i <= r.value && BlankLineAt(s, r.value)
    ensures r.Some? ==> forall j :: i <= j < r.value ==> !BlankLineAt(s, j)
    ensures r.None? ==> forall j :: i <= j ==> !BlankLineAt(s, j)
    decreases |s| - i
  {
    if i + 4 > |s| then None
    else if BlankLineAt(s, i) then Some(i)
    else BlankLine(s, i + 1)
  }

  /** Before the upgrade, open, after a close frame, or past a length that was lost. */
  datatype Phase = Upgrading | Open | Closing | Lost {
    function After(d: Drained): Phase {
      if d.lost then Lost else if d.closed then Closing else this
    }
  }

  datatype Conn = Conn(phase: Phase, handshake: seq<byte>, recv: seq<byte>)

  const FRESH := Conn(Upgrading, [], [])

  /** One readyRead: the new connection state and what it caused. `accepts` stands for the tests
      of the status line and of Sec-WebSocket-Accept on the header block. */
  function Feed(accepts: seq<byte> -> bool, c: Conn, chunk: seq<byte>): (Conn, seq<Effect>) {
    if c.phase.Lost? then (c, [])
    else if !c.phase.Upgrading? then
      var d := Drain(c.recv + chunk);
      (c.(recv := d.rest, phase := c.phase.After(d)), Heard(c.phase.Open?, d.effects))
    else
      var h := c.handshake + chunk;
      match BlankLine(h, 0)
      case None => (c.(handshake := h), if |h| > HANDSHAKE_LIMIT then [HandshakeTooLarge] else [])
      case Some(i) =>
        if !accepts(h[..i]) then (c.(handshake := h), [HandshakeFailed])
        else
          var left := h[i + 4..];
          var d := if left == [] then Drained([], c.recv, false, false) else Drain(c.recv + left);
          (Conn(Open.After(d), [], d.rest), d.effects + [Connected])
  }

  class Client {
    const accepts: seq<byte> -> bool
    var conn: Conn
    var effects: seq<Effect>

    constructor (accepts: seq<byte> -> bool)
      ensures this.accepts == accepts && effects == [] && conn == FRESH
    {
      this.accepts := accepts;
      conn := FRESH;
      effects := [];
    }

    method HandleIncoming(data: seq<byte>)
      modifies this
      ensures var d := Drain(old(conn.recv) + data);
              && effects == old(effects) + Heard(old(conn.phase).Open?, d.effects)
              && conn == old(conn).(recv := d.rest, phase := old(conn.phase).After(d))
    {
      hide EffectOf, ParseFrame, Heard;
      var buf := conn.recv + data;
      var open := conn.phase.Open?;
      ghost var whole := Drain(buf);
      while |buf| >= 2
        invariant effects + Heard(open, Drain(buf).effects) == old(effects) + Heard(open, whole.effects)
        invariant Drain(buf) == whole.(effects := Drain(buf).effects)
        invariant conn == old(conn)
        decreases |buf|
      {
        var next := TakeFrame(buf);
        if next.Incomplete? {
          break;
        }
        if next.Unrepresentable? {
          effects := effects + Heard(open, [LengthOverflow]);
          conn := conn.(recv := buf, phase := Lost);
          return;
        }
        ghost var before := effects;
        effects := effects + Heard(open, EffectOf(next.frame));
        buf := buf[next.size..];
        if next.frame.opcode == 8 {
          conn := conn.(recv := buf, phase := Closing);
          return;
        }
        HeardAppend(open, EffectOf(next.frame), Drain(buf).effects);
        Associate(before, Heard(open, EffectOf(next.frame)), Heard(open, Drain(buf).effects));
      }
      TooShort(buf);
      HeardNothing(open);
      conn := conn.(recv := buf);
    }

    method OnReadyRead(chunk: seq<byte>)
      modifies this
      ensures var (c, e) := Feed(accepts, old(conn), chunk);
              conn == c && effects == old(effects) + e
    {
      hide Drain, BlankLine, Heard;
      if conn.phase == Lost {
        return;
      }
      if conn.phase == Upgrading {
        var h := conn.handshake + chunk;
        conn := conn.(handshake := h);
        var end := BlankLine(h, 0);
        if end.None? {
          if |h| > HANDSHAKE_LIMIT {
            effects := effects + [HandshakeTooLarge];
          }
          return;
        }
        if !accepts(h[..end.value]) {
          effects := effects + [HandshakeFailed];
          return;
        }
        var leftover := h[end.value + 4..];
        conn := Conn(Open, [], conn.recv);
        if leftover != [] {
          HandleIncoming(leftover);
          HeardOpen(Drain(old(conn.recv) + leftover).effects);
        }
        effects := effects + [Connected];
        return;
      }
      HandleIncoming(chunk);
    }
  }

  lemma Associate(a: seq<Effect>, b: seq<Effect>, c: seq<Effect>)
    ensures a + (b + c) == a + b + c
  {
  }

  lemma HeardNothing(open: bool)
    ensures Heard(open, []) == []
  {
  }

  lemma HeardOpen(es: seq<Effect>)
    ensures Heard(true, es) == es
  {
  }

  // ---------------------------------------------------------------- every way of cutting the stream

  function Concat(chunks: seq<seq<byte>>): seq<byte> {
    if chunks == [] then [] else chunks[0] + Concat(chunks[1..])
  }

  /** All effects of a list of reads. */
  function Run(accepts: seq<byte> -> bool, c: Conn, chunks: seq<seq<byte>>): seq<Effect>
    decreases |chunks|
  {
    if chunks == [] then []
    else var (c', e) := Feed(accepts, c, chunks[0]);
         e + Run(accepts, c', chunks[1..])
  }

  predicate Ends(e: Effect) {
    e.Close? || e.LengthOverflow?
  }

  predicate Ended(es: seq<Effect>) {
    Close in es || LengthOverflow in es
  }

  /** Everything up to and including the first close (or length overflow), the connected signal
      aside. */
  function UntilClose(es: seq<Effect>): seq<Effect> {
    if es == [] then []
    else if Ends(es[0]) then [es[0]]
    else if es[0] == Connected then UntilClose(es[1..])
    else [es[0]] + UntilClose(es[1..])
  }

  lemma {:induction false} UntilCloseAppend(a: seq<Effect>, b: seq<Effect>)
    ensures UntilClose(a + b) == if Ended(a) then UntilClose(a) else UntilClose(a) + UntilClose(b)
  {
    if a == [] {
      assert a + b == b;
    } else {
      assert (a + b)[0] == a[0] && (a + b)[1..] == a[1..] + b;
      if !Ends(a[0]) {
        UntilCloseAppend(a[1..], b);
        assert Ended(a) <==> Ended(a[1..]);
        var x, y := UntilClose(a[1..]), UntilClose(b);
        assert [a[0]] + (x + y) == [a[0]] + x + y;
      }
    }
  }

  lemma {:induction false} DrainEffects(buf: seq<byte>)
    ensures var d := Drain(buf);
            UntilClose(d.effects) == d.effects && (Ended(d.effects) <==> d.closed || d.lost)
    decreases |buf|
  {
    var p := ParseFrame(buf);
    if p.Complete? {
      hide ParseFrame;
      if p.frame.opcode != 8 {
        DrainEffects(buf[p.size..]);
        var es := EffectOf(p.frame);
        UntilCloseAppend(es, Drain(buf[p.size..]).effects);
        assert es != [] ==> es[1..] == [];
      }
    }
  }

  /** After the upgrade: reads that leave the parser waiting for the rest of a frame. */
  lemma {:induction false} OpenRun(
    accepts: seq<byte> -> bool, c: Conn, chunks: seq<seq<byte>>)
    requires c.phase.Open? && ParseFrame(c.recv) == Incomplete
    ensures UntilClose(Run(accepts, c, chunks)) == Drain(c.recv + Concat(chunks)).effects
    decreases |chunks|
  {
    hide ParseFrame;
    if chunks == [] {
      assert c.recv + [] == c.recv;
    } else {
      var now, later := c.recv + chunks[0], Concat(chunks[1..]);
      var d := Drain(now);
      assert c.recv + Concat(chunks) == now + later;
      DrainAppend(now, later);
      DrainEffects(now);
      var c' := c.(recv := d.rest, phase := Open.After(d));
      UntilCloseAppend(d.effects, Run(accepts, c', chunks[1..]));
      if !d.closed && !d.lost {
        DrainStops(now);
        OpenRun(accepts, c', chunks[1..]);
      }
    }
  }

  /** A stream whose first blank line, at offset end, closes an accepted header. */
  ghost predicate Upgrades(accepts: seq<byte> -> bool, s: seq<byte>, end: nat) {
    && BlankLineAt(s, end)
    && (forall j: nat :: j < end ==> !BlankLineAt(s, j))
    && accepts(s[..end])
  }

  /** ... and a small enough one. */
  ghost predicate GoodStream(accepts: seq<byte> -> bool, s: seq<byte>, end: nat) {
    Upgrades(accepts, s, end) && end + 3 <= HANDSHAKE_LIMIT
  }

  lemma BlankLineInPrefix(s: seq<byte>, end: nat, n: nat)
    requires BlankLineAt(s, end) && (forall j: nat :: j < end ==> !BlankLineAt(s, j)) && n <= |s|
    ensures BlankLine(s[..n], 0) == if n < end + 4 then None else Some(end)
  {
    forall j: nat | BlankLineAt(s[..n], j) ensures BlankLineAt(s, j) {}
    if n >= end + 4 {
      assert BlankLineAt(s[..n], end);
    }
  }

  lemma NextChunk(s: seq<byte>, n: nat, chunk: seq<byte>, later: seq<byte>)
    requires n <= |s| && s[n..] == chunk + later
    ensures n + |chunk| <= |s| && s[..n] + chunk == s[..n + |chunk|] && s[n + |chunk|..] == later
  {
    var m := n + |chunk|;
    assert s == s[..n] + (chunk + later);
  }

  lemma CutHeader(s: seq<byte>, end: nat, m: nat)
    requires end + 4 <= m <= |s|
    ensures s[..m][end + 4..] == s[end + 4..m] && s[..m][..end] == s[..end]
    ensures s[end + 4..m] + s[m..] == s[end + 4..]
  {
  }

  /** During the upgrade, with the first n bytes of the stream already read. */
  lemma {:induction false} UpgradeRun(
    accepts: seq<byte> -> bool, s: seq<byte>, end: nat, n: nat, chunks: seq<seq<byte>>)
    requires GoodStream(accepts, s, end)
    requires n < end + 4 && s[n..] == Concat(chunks)
    ensures UntilClose(Run(accepts, Conn(Upgrading, s[..n], []), chunks)) == Drain(s[end + 4..]).effects
    decreases |chunks|
  {
    hide Drain, UntilClose, Feed;
    if chunks != [] {
      var m, later := n + |chunks[0]|, chunks[1..];
      NextChunk(s, n, chunks[0], Concat(later));
      ReadOfHeader(accepts, s, end, n, chunks[0]);
      if m < end + 4 {
        UpgradeRun(accepts, s, end, m, later);
        var rest := Run(accepts, Conn(Upgrading, s[..m], []), later);
        assert [] + rest == rest;
      } else {
        CutHeader(s, end, m);
        HandOver(accepts, s[end + 4..m], later);
      }
    }
  }

  /** One read of the upgrade: it stays in front of the blank line, or hands over what is behind. */
  lemma ReadOfHeader(accepts: seq<byte> -> bool, s: seq<byte>, end: nat, n: nat, chunk: seq<byte>)
    requires GoodStream(accepts, s, end) && n < end + 4
    requires var m := n + |chunk|; m <= |s| && s[..n] + chunk == s[..m]
    ensures var m := n + |chunk|;
            Feed(accepts, Conn(Upgrading, s[..n], []), chunk)
            == if m < end + 4 then (Conn(Upgrading, s[..m], []), [])
               else var d := Drain(s[end + 4..m]); (Conn(Open.After(d), [], d.rest), d.effects + [Connected])
  {
    hide Drain, BlankLine;
    var m := n + |chunk|;
    BlankLineInPrefix(s, end, m);
    if m >= end + 4 {
      var left := s[end + 4..m];
      CutHeader(s, end, m);
      assert [] + left == left;
      DrainNothing();
    }
  }

  lemma UntilCloseConnected(a: seq<Effect>, b: seq<Effect>)
    ensures UntilClose((a + [Connected]) + b)
            == if Ended(a) then UntilClose(a) else UntilClose(a) + UntilClose(b)
  {
    UntilCloseAppend(a + [Connected], b);
    UntilCloseAppend(a, [Connected]);
    assert [Connected][1..] == [];
  }

  /** The first frames may come with the last header bytes; they take effect before the
      connected signal. */
  lemma HandOver(accepts: seq<byte> -> bool, left: seq<byte>, chunks: seq<seq<byte>>)
    ensures var d := Drain(left);
            UntilClose((d.effects + [Connected]) + Run(accepts, Conn(Open.After(d), [], d.rest), chunks))
            == Drain(left + Concat(chunks)).effects
  {
    hide Run, UntilClose;
    var d := Drain(left);
    var c := Conn(Open.After(d), [], d.rest);
    DrainAppend(left, Concat(chunks));
    DrainEffects(left);
    UntilCloseConnected(d.effects, Run(accepts, c, chunks));
    if !d.closed && !d.lost {
      DrainStops(left);
      OpenRun(accepts, c, chunks);
    }
  }

  /** A header ends where two line ends, each of carriage return and line feed, follow it, and no earlier
      four octets of the stream are those. */
  lemma HeaderEndsAt(head: seq<byte>, body: seq<byte>, i: nat)
    ensures BlankLineAt(head + [13, 10, 13, 10] + body, |head|)
    ensures var s := head + [13, 10, 13, 10] + body;
            BlankLineAt(s, i) <==> i + 4 <= |s| && s[i..i + 4] == [13, 10, 13, 10]
  {
    var s := head + [13, 10, 13, 10] + body;
    if i + 4 <= |s| {
      var w := s[i..i + 4];
      assert w[0] == s[i] && w[1] == s[i + 1] && w[2] == s[i + 2] && w[3] == s[i + 3];
      assert BlankLineAt(s, i) ==> w == [13, 10, 13, 10];
    }
  }

  /** For every stream that starts with a good handshake, and every way of cutting it into reads,
      the effects up to and including the first close frame are those of parsing the frames in
      one piece. */
  lemma ChunkingIsInvisible(
    accepts: seq<byte> -> bool, s: seq<byte>, end: nat, chunks: seq<seq<byte>>)
    requires GoodStream(accepts, s, end) && Concat(chunks) == s
    ensures UntilClose(Run(accepts, FRESH, chunks)) == Drain(s[end + 4..]).effects
  {
    assert s[..0] == [] && s[0..] == s;
    UpgradeRun(accepts, s, end, 0, chunks);
  }

  /** However the stream is cut into reads, the effects up to the first close are the same. */
  ghost predicate CutsInvisible(accepts: seq<byte> -> bool, s: seq<byte>, end: nat)
    requires end + 4 <= |s|
  {
    forall chunks: seq<seq<byte>> :: Concat(chunks) == s ==>
      UntilClose(Run(accepts, FRESH, chunks)) == Drain(s[end + 4..]).effects
  }

  lemma {:induction false} FramesNeverTooLarge(buf: seq<byte>)
    ensures HandshakeTooLarge !in Drain(buf).effects
    decreases |buf|
  {
    var p := ParseFrame(buf);
    if p.Complete? {
      hide ParseFrame;
      if p.frame.opcode != 8 {
        FramesNeverTooLarge(buf[p.size..]);
      }
    }
  }

  lemma ConcatTwo(a: seq<byte>, b: seq<byte>)
    ensures Concat([a, b]) == a + b && Concat([a]) == a
  {
    assert [a, b][1..] == [b] && [b][1..] == [] && [a][1..] == [];
    assert Concat([b]) == b + [] == b && Concat([a]) == a + [] == a;
  }

  /** For an accepted header, of any size, that holds if and only if all but its last byte stay
      within the size limit: a longer one, cut before that byte, is reported as too large. */
  lemma ChunkingExact(accepts: seq<byte> -> bool, s: seq<byte>, end: nat)
    requires Upgrades(accepts, s, end)
    ensures CutsInvisible(accepts, s, end) <==> end + 3 <= 16384
  {
    if end + 3 <= HANDSHAKE_LIMIT {
      forall chunks: seq<seq<byte>> | Concat(chunks) == s
        ensures UntilClose(Run(accepts, FRESH, chunks)) == Drain(s[end + 4..]).effects
      {
        ChunkingIsInvisible(accepts, s, end, chunks);
      }
    } else {
      var chunks := [s[..end + 3], s[end + 3..]];
      ConcatTwo(s[..end + 3], s[end + 3..]);
      assert Concat(chunks) == s;
      BlankLineInPrefix(s, end, end + 3);
      FramesNeverTooLarge(s[end + 4..]);
      hide Drain, BlankLine;
      assert [] + s[..end + 3] == s[..end + 3];
      var es := Run(accepts, FRESH, chunks);
      assert es[0] == HandshakeTooLarge;
      assert UntilClose(es)[0] == HandshakeTooLarge;
    }
  }

  // ---------------------------------------------------------------- what comes behind a close frame

  /** A frame is parsed from its own bytes. */
  lemma ParseFrameOwn(buf: seq<byte>)
    requires ParseFrame(buf).Complete?
    ensures ParseFrame(buf[..ParseFrame(buf).size]) == ParseFrame(buf)
  {
    hide BE, Mask, Int32;
    var n, h := ParseFrame(buf).size, HeaderLength(buf[1]);
    var own := buf[..n];
    assert own + buf[n..] == buf;
    SliceOfPrefix(own, buf[n..], 2, h);
    assert DeclaredLength(own) == DeclaredLength(buf);
    hide DeclaredLength;
    var start := h + MaskLength(buf[1]);
    SliceOfPrefix(own, buf[n..], start, n);
    SliceOfPrefix(own, buf[n..], h, start);
  }

  /** The bytes up to and including the close frame. */
  lemma {:induction false} DrainToClose(buf: seq<byte>)
    requires Drain(buf).closed
    ensures var d := Drain(buf);
            && |d.rest| <= |buf| && buf[|buf| - |d.rest|..] == d.rest
            && Drain(buf[..|buf| - |d.rest|]) == d.(rest := [])
    decreases |buf|
  {
    hide ParseFrame;
    var p := ParseFrame(buf);
    ParseFrameOwn(buf);
    if p.frame.opcode == 8 {
      assert buf[..p.size][p.size..] == [];
    } else {
      var m := |buf| - |Drain(buf).rest|;
      DrainToClose(buf[p.size..]);
      hide Drain;
      CutAt(buf, p.size, m);
      ParseFrameAppend(buf[..p.size], buf[p.size..m]);
      DrainOne(buf[..m]);
      DrainOne(buf);
    }
  }

  lemma CutAt(buf: seq<byte>, n: nat, m: nat)
    requires n <= m <= |buf|
    ensures buf[..n] + buf[n..m] == buf[..m] && buf[..m][n..] == buf[n..m] == buf[n..][..m - n]
    ensures buf[n..][m - n..] == buf[m..]
  {
  }

  lemma DrainOne(buf: seq<byte>)
    requires ParseFrame(buf).Complete? && ParseFrame(buf).frame.opcode != 8
    ensures var p := ParseFrame(buf); var d := Drain(buf[p.size..]);
            Drain(buf) == d.(effects := EffectOf(p.frame) + d.effects)
  {
    hide ParseFrame, EffectOf;
  }

  /** No text frame among the complete frames of the buffer, and every length survives. */
  predicate Silent(buf: seq<byte>)
    decreases |buf|
  {
    match ParseFrame(buf)
    case Incomplete => true
    case Unrepresentable => false
    case Complete(f, n) => f.opcode != 1 && Silent(buf[n..])
  }

  lemma {:induction false} SilentFront(a: seq<byte>, b: seq<byte>)
    requires Silent(a + b)
    ensures var d := Drain(a); Heard(false, d.effects) == [] && !d.lost && Silent(d.rest + b)
    decreases |a|
  {
    hide ParseFrame;
    var p := ParseFrame(a);
    if !p.Incomplete? {
      ParseFrameAppend(a, b);
    }
    if p.Complete? {
      assert (a + b)[p.size..] == a[p.size..] + b;
      if p.frame.opcode != 8 {
        SilentFront(a[p.size..], b);
        HeardAppend(false, EffectOf(p.frame), Drain(a[p.size..]).effects);
      }
      MutedFrame(p.frame);
    }
  }

  lemma MutedFrame(f: Frame)
    ensures Heard(false, EffectOf(f)) == if f.opcode == 1 then EffectOf(f) else []
  {
    var es := EffectOf(f);
    assert es != [] ==> es[1..] == [];
  }

  /** Behind a close frame, bytes without a text frame have no effect however they are cut. */
  lemma {:induction false} ClosedRun(accepts: seq<byte> -> bool, c: Conn, chunks: seq<seq<byte>>)
    requires c.phase.Closing? && Silent(c.recv + Concat(chunks))
    ensures Run(accepts, c, chunks) == []
    decreases |chunks|
  {
    if chunks != [] {
      var now, later := c.recv + chunks[0], Concat(chunks[1..]);
      assert c.recv + Concat(chunks) == now + later;
      SilentFront(now, later);
      hide Drain, Silent, Heard;
      ClosedRun(accepts, c.(recv := Drain(now).rest), chunks[1..]);
    }
  }

  /** On an open connection, all effects of a run, those behind a close frame included. */
  lemma {:induction false} OpenRunWhole(accepts: seq<byte> -> bool, c: Conn, chunks: seq<seq<byte>>)
    requires c.phase.Open? && ParseFrame(c.recv) == Incomplete
    requires var d := Drain(c.recv + Concat(chunks)); d.closed ==> Silent(d.rest)
    ensures Run(accepts, c, chunks) == Drain(c.recv + Concat(chunks)).effects
    decreases |chunks|
  {
    hide ParseFrame, Silent;
    if chunks == [] {
      assert c.recv + [] == c.recv;
    } else {
      var now, later := c.recv + chunks[0], Concat(chunks[1..]);
      var d := Drain(now);
      assert c.recv + Concat(chunks) == now + later;
      DrainAppend(now, later);
      hide Drain, Concat, Heard;
      var c' := c.(recv := d.rest, phase := Open.After(d));
      HeardOpen(d.effects);
      if d.closed {
        ClosedIsNotLost(now);
        ClosedRun(accepts, c', chunks[1..]);
        assert d.effects + [] == d.effects;
      } else if d.lost {
        LostRun(accepts, c', chunks[1..]);
      } else {
        DrainStops(now);
        OpenRunWhole(accepts, c', chunks[1..]);
      }
    }
  }

  lemma {:induction false} LostRun(accepts: seq<byte> -> bool, c: Conn, chunks: seq<seq<byte>>)
    requires c.phase.Lost?
    ensures Run(accepts, c, chunks) == []
    decreases |chunks|
  {
    if chunks != [] {
      LostRun(accepts, c, chunks[1..]);
    }
  }

  /** One read per frame. */
  function Pieces(buf: seq<byte>): seq<seq<byte>>
    decreases |buf|
  {
    match ParseFrame(buf)
    case Complete(_, n) => [buf[..n]] + Pieces(buf[n..])
    case _ => [buf]
  }

  lemma {:induction false} ConcatPieces(buf: seq<byte>)
    ensures Concat(Pieces(buf)) == buf
    decreases |buf|
  {
    hide ParseFrame;
    var p := ParseFrame(buf);
    if p.Complete? {
      ConcatPieces(buf[p.size..]);
      assert buf[..p.size] + buf[p.size..] == buf;
    } else {
      ConcatTwo(buf, []);
    }
  }

  /** Read frame by frame, bytes with a text frame do have an effect behind a close frame. */
  lemma {:induction false} PiecesHeard(accepts: seq<byte> -> bool, c: Conn, buf: seq<byte>)
    requires c.phase.Closing? && c.recv == [] && !Silent(buf)
    ensures Run(accepts, c, Pieces(buf)) != []
    decreases |buf|
  {
    hide ParseFrame;
    var p := ParseFrame(buf);
    if p.Complete? {
      var own := buf[..p.size];
      ParseFrameOwn(buf);
      assert [] + own == own && own[p.size..] == [];
      assert Pieces(buf)[1..] == Pieces(buf[p.size..]);
      DrainSingle(own);
      MutedFrame(p.frame);
      hide Drain;
      if p.frame.opcode != 1 {
        PiecesHeard(accepts, c, buf[p.size..]);
      }
    } else {
      assert [] + buf == buf;
      assert Heard(false, [LengthOverflow]) == [LengthOverflow];
    }
  }

  /** A buffer of exactly one frame. */
  lemma DrainSingle(own: seq<byte>)
    requires ParseFrame(own).Complete? && ParseFrame(own).size == |own|
    ensures var f := ParseFrame(own).frame;
            Drain(own) == Drained(EffectOf(f), [], f.opcode == 8, false)
  {
    assert own[|own|..] == [];
    DrainNothing();
    hide ParseFrame;
  }

  /** However the frames are cut into reads, all their effects are those of one parse. */
  ghost predicate WholeRunsAgree(accepts: seq<byte> -> bool, x: seq<byte>) {
    forall chunks: seq<seq<byte>> :: Concat(chunks) == x ==>
      Run(accepts, Conn(Open, [], []), chunks) == Drain(x).effects
  }

  lemma WholeRunsDecided(accepts: seq<byte> -> bool, x: seq<byte>)
    ensures WholeRunsAgree(accepts, x) <==> (Drain(x).closed ==> Silent(Drain(x).rest))
  {
    hide Drain, Run, Silent;
    var d, c := Drain(x), Conn(Open, [], []);
    if d.closed ==> Silent(d.rest) {
      forall chunks: seq<seq<byte>> | Concat(chunks) == x ensures Run(accepts, c, chunks) == d.effects {
        assert [] + Concat(chunks) == x;
        OpenRunWhole(accepts, c, chunks);
      }
    } else {
      DrainToClose(x);
      var front := x[..|x| - |d.rest|];
      var chunks := [front] + Pieces(d.rest);
      ConcatPieces(d.rest);
      assert Concat(chunks) == front + d.rest == x by {
        assert chunks[1..] == Pieces(d.rest);
      }
      FirstRead(accepts, front, Pieces(d.rest));
      PiecesHeard(accepts, Conn(Closing, [], []), d.rest);
    }
  }

  lemma FirstRead(accepts: seq<byte> -> bool, front: seq<byte>, later: seq<seq<byte>>)
    requires Drain(front).closed && Drain(front).rest == []
    ensures Run(accepts, Conn(Open, [], []), [front] + later)
            == Drain(front).effects + Run(accepts, Conn(Closing, [], []), later)
  {
    hide Drain;
    assert [] + front == front && ([front] + later)[1..] == later;
    assert !Drain(front).lost by { ClosedIsNotLost(front); }
    HeardOpen(Drain(front).effects);
  }

  lemma {:induction false} ClosedIsNotLost(buf: seq<byte>)
    ensures !(Drain(buf).closed && Drain(buf).lost)
    decreases |buf|
  {
    hide ParseFrame;
    var p := ParseFrame(buf);
    if p.Complete? {
      ClosedIsNotLost(buf[p.size..]);
    }
  }

  // ---------------------------------------------------------------- the frame writer

  /** The shortest length field of section 5.2, with the mask bit set. */
  function LengthField(n: nat): seq<byte> {
    if n < 126 then [128 + n]
    else if n <= 0xFFFF then [128 + 126] + BEBytes(2, n)
    else [128 + 127] + BEBytes(8, n)
  }

  /** A single-fragment masked frame of section 5.2. */
  function FrameBytes(opcode: nat, k: key, payload: seq<byte>): seq<byte> {
    [128 + opcode % 16] + (LengthField(|payload|) + (k + Mask(payload, k)))
  }

  /** What goes out, if anything: nothing is written on a socket that is not connected. */
  method WriteFrame(connected: bool, opcode: nat, payload: seq<byte>, k: key) returns (out: Option<seq<byte>>)
    ensures out == if connected then Some(FrameBytes(opcode, k, payload)) else None
  {
    if !connected {
      return None;
    }
    var frame := [128 + opcode % 16];
    var len := |payload|;
    var field := [];
    if len < 126 {
      field := [128 + len];
    } else if len <= 0xFFFF {
      field := [128 + 126, len / 256, len % 256];
      assert BEBytes(2, len) == [len / 256, len % 256] by {
        assert len / 256 % 256 == len / 256;
        assert BEBytes(1, len / 256) == BEBytes(0, len / 256 / 256) + [len / 256];
      }
    } else {
      field := [128 + 127];
      var i := 8;
      while i > 0
        invariant 0 <= i <= 8
        invariant field == [128 + 127] + TopBytes(8, len, 8 - i)
      {
        i := i - 1;
        TopBytesStep(8, len, 7 - i);
        field := field + [Shr8(len, i) % 256];
      }
      TopBytesAll(8, len);
    }
    var body := ApplyMask(payload, k);
    frame := frame + (field + (k + body));
    assert frame == FrameBytes(opcode, k, payload);
    return Some(frame);
  }

  /** `n >> (8 * i)`. */
  function Shr8(n: nat, i: nat): nat {
    if i == 0 then n else Shr8(n / 256, i - 1)
  }

  /** The first m of k big-endian octets, one shift at a time. */
  function TopBytes(k: nat, n: nat, m: nat): seq<byte>
    requires m <= k
  {
    if m == 0 then [] else TopBytes(k, n, m - 1) + [Shr8(n, k - m) % 256]
  }

  lemma TopBytesStep(k: nat, n: nat, m: nat)
    requires m < k
    ensures TopBytes(k, n, m + 1) == TopBytes(k, n, m) + [Shr8(n, k - m - 1) % 256]
  {
  }

  lemma {:induction false} TopBytesShift(k: nat, n: nat, m: nat)
    requires m < k
    ensures TopBytes(k, n, m) == TopBytes(k - 1, n / 256, m)
  {
    if m > 0 {
      TopBytesShift(k, n, m - 1);
    }
  }

  lemma {:induction false} TopBytesAll(k: nat, n: nat)
    ensures TopBytes(k, n, k) == BEBytes(k, n)
    decreases k, n
  {
    if k > 0 {
      TopBytesShift(k, n, k - 1);
      TopBytesAll(k - 1, n / 256);
    }
  }

  const MAX_PAYLOAD: nat := 0x7FFF_FFFF - 14

  lemma ParseMasked(buf: seq<byte>, start: nat)
    requires |buf| >= 2 && buf[1] >= 128 && start == HeaderLength(buf[1]) + 4
    requires |buf| >= start && start + DeclaredLength(buf) == |buf| <= INT_MAX
    ensures ParseFrame(buf) == Complete(
                                 Frame(buf[0] >= 128, buf[0] % 16,
                                       Mask(buf[start..], buf[start - 4..start])), |buf|)
  {
    hide Mask, BE;
    assert buf[start..|buf|] == buf[start..];
  }

  lemma LengthFieldDecodes(n: nat, buf: seq<byte>)
    requires n <= MAX_PAYLOAD && |buf| >= 1 + |LengthField(n)|
    requires buf[1..1 + |LengthField(n)|] == LengthField(n)
    ensures buf[1] >= 128 && HeaderLength(buf[1]) == 1 + |LengthField(n)|
    ensures DeclaredLength(buf) == n
  {
    var field := LengthField(n);
    assert buf[1] == buf[1..1 + |field|][0];
    if n >= 126 {
      assert Pow256(2) == 0x1_0000 && Pow256(4) == 0x1_0000_0000;
      assert Pow256(8) == 0x1_0000_0000_0000_0000;
      BEInverse(if n <= 0xFFFF then 2 else 8, n);
      assert buf[2..1 + |field|] == buf[1..1 + |field|][1..] == field[1..];
    }
  }

  lemma FrameLayout(x: byte, field: seq<byte>, k: key, body: seq<byte>)
    ensures var buf := [x] + (field + (k + body));
            && |buf| == 1 + |field| + 4 + |body| && buf[0] == x
            && buf[1..1 + |field|] == field
            && buf[1 + |field|..5 + |field|] == k
            && buf[5 + |field|..] == body
  {
  }

  /** The parser reads back what the writer produces, in all three length forms. */
  lemma ParseWritten(opcode: nat, k: key, payload: seq<byte>, more: seq<byte>)
    requires opcode < 16 && |payload| <= MAX_PAYLOAD
    ensures ParseFrame(FrameBytes(opcode, k, payload) + more)
            == Complete(Frame(true, opcode, payload), |FrameBytes(opcode, k, payload)|)
  {
    hide FrameBytes, ParseFrame;
    ParseWrittenAlone(opcode, k, payload);
    ParseFrameAppend(FrameBytes(opcode, k, payload), more);
  }

  lemma ParseWrittenAlone(opcode: nat, k: key, payload: seq<byte>)
    requires opcode < 16 && |payload| <= MAX_PAYLOAD
    ensures ParseFrame(FrameBytes(opcode, k, payload))
            == Complete(Frame(true, opcode, payload), |FrameBytes(opcode, k, payload)|)
  {
    var buf, field := FrameBytes(opcode, k, payload), LengthField(|payload|);
    FrameLayout(128 + opcode % 16, field, k, Mask(payload, k));
    LengthFieldDecodes(|payload|, buf);
    MaskTwice(payload, k);
    hide LengthField, FrameBytes, ParseFrame, Mask;
    ParseMasked(buf, 5 + |field|);
  }

  /** No length field that denotes n, masked or not, is shorter than the one written. */
  lemma LengthFieldIsMinimal(n: nat, buf: seq<byte>)
    requires |buf| >= 2 && |buf| >= HeaderLength(buf[1]) && DeclaredLength(buf) == n
    ensures 1 + |LengthField(n)| <= HeaderLength(buf[1])
  {
    if HeaderLength(buf[1]) == 4 {
      BEBound(buf[2..4]);
      assert Pow256(2) == 0x1_0000;
    }
  }

  // ---------------------------------------------------------------- frames as a server sends them

  /** The length field of section 5.2 without the mask bit. */
  function ServerLength(n: nat): seq<byte> {
    if n < 126 then [n]
    else if n <= 0xFFFF then [126] + BEBytes(2, n)
    else [127] + BEBytes(8, n)
  }

  /** An unmasked frame; the first octet holds FIN, three reserved bits and the opcode. */
  function ServerFrame(first: byte, payload: seq<byte>): seq<byte> {
    [first] + (ServerLength(|payload|) + payload)
  }

  lemma ServerLengthDecodes(n: nat, buf: seq<byte>)
    requires n <= MAX_PAYLOAD && |buf| >= 1 + |ServerLength(n)|
    requires buf[1..1 + |ServerLength(n)|] == ServerLength(n)
    ensures buf[1] < 128 && HeaderLength(buf[1]) == 1 + |ServerLength(n)|
    ensures DeclaredLength(buf) == n
  {
    var field := ServerLength(n);
    assert buf[1] == buf[1..1 + |field|][0];
    if n >= 126 {
      assert Pow256(2) == 0x1_0000 && Pow256(4) == 0x1_0000_0000;
      assert Pow256(8) == 0x1_0000_0000_0000_0000;
      BEInverse(if n <= 0xFFFF then 2 else 8, n);
      assert buf[2..1 + |field|] == buf[1..1 + |field|][1..] == field[1..];
    }
  }

  lemma ParseUnmasked(buf: seq<byte>, start: nat)
    requires |buf| >= 2 && buf[1] < 128 && start == HeaderLength(buf[1])
    requires |buf| >= start && start + DeclaredLength(buf) == |buf| <= INT_MAX
    ensures ParseFrame(buf) == Complete(Frame(buf[0] >= 128, buf[0] % 16, buf[start..]), |buf|)
  {
    hide Mask, BE;
    var len := DeclaredLength(buf);
    assert MaskLength(buf[1]) == 0 && Int32(len) == len;
    assert buf[start..start + len] == buf[start..];
    hide DeclaredLength, Int32, HeaderLength, MaskLength;
  }

  lemma ServerLayout(first: byte, field: seq<byte>, payload: seq<byte>)
    ensures var buf := [first] + (field + payload);
            && |buf| == 1 + |field| + |payload| && buf[0] == first
            && buf[1..1 + |field|] == field && buf[1 + |field|..] == payload
  {
  }

  /** Every unmasked frame, whatever follows it, is parsed as its FIN bit, its opcode and its payload. */
  lemma ParseServer(first: byte, payload: seq<byte>, more: seq<byte>)
    requires |payload| <= MAX_PAYLOAD
    ensures ParseFrame(ServerFrame(first, payload) + more)
            == Complete(Frame(first / 128 == 1, first % 16, payload), |ServerFrame(first, payload)|)
  {
    var buf, field := ServerFrame(first, payload), ServerLength(|payload|);
    ServerLayout(first, field, payload);
    ServerLengthDecodes(|payload|, buf);
    hide ServerLength, ServerFrame, ParseFrame;
    ParseUnmasked(buf, 1 + |field|);
    ParseFrameAppend(buf, more);
  }

  /** What each kind of frame does on an open connection: a final text frame emits its payload and an
      unfinished one the error, a ping is answered with its payload, a close frame disconnects with
      the rest left in the buffer, and every other frame is passed over. */
  lemma ServerEffects(first: byte, payload: seq<byte>, more: seq<byte>)
    requires |payload| <= MAX_PAYLOAD
    ensures var d, rest := Drain(ServerFrame(first, payload) + more), Drain(more);
            && (first % 16 == 1 && first >= 128 ==> d.effects == [Text(payload)] + rest.effects)
            && (first % 16 == 1 && first < 128 ==> d.effects == [FragmentedText] + rest.effects)
            && (first % 16 == 9 ==> d.effects == [Pong(payload)] + rest.effects)
            && (first % 16 == 8 ==> d == Drained([Close], more, true, false))
            && (first % 16 != 1 && first % 16 != 8 && first % 16 != 9 ==> d.effects == rest.effects)
  {
    var x := ServerFrame(first, payload) + more;
    ParseServer(first, payload, more);
    assert x[|ServerFrame(first, payload)|..] == more;
    hide ServerFrame, ParseFrame;
    if first % 16 != 8 {
      DrainOne(x);
      hide Drain;
    }
  }

  // ---------------------------------------------------------------- upgrades that fail

  /** The number of reads after which more than n bytes have come in. */
  function ReadsBeyond(chunks: seq<seq<byte>>, have: nat, n: nat): nat
    decreases |chunks|
  {
    if chunks == [] then 0
    else (if have + |chunks[0]| > n then 1 else 0) + ReadsBeyond(chunks[1..], have + |chunks[0]|, n)
  }

  function Times(e: Effect, n: nat): seq<Effect> {
    if n == 0 then [] else [e] + Times(e, n - 1)
  }

  /** The header has no end. */
  ghost predicate Unfinished(s: seq<byte>) {
    forall j: nat :: !BlankLineAt(s, j)
  }

  /** A stream without a blank line is reported as too large by every read that finds more than 16384
      bytes, and has no other effect. */
  lemma {:induction false} HeaderNeverEnds(
    accepts: seq<byte> -> bool, s: seq<byte>, n: nat, chunks: seq<seq<byte>>)
    requires n <= |s| && s[n..] == Concat(chunks) && Unfinished(s)
    ensures Run(accepts, Conn(Upgrading, s[..n], []), chunks) == Times(HandshakeTooLarge, ReadsBeyond(chunks, n, 16384))
    decreases |chunks|
  {
    hide Unfinished, Feed, BlankLine;
    if chunks != [] {
      var m := n + |chunks[0]|;
      NextChunk(s, n, chunks[0], Concat(chunks[1..]));
      NoBlankLine(s, m);
      ReadWithoutHeader(accepts, s[..n], chunks[0]);
      HeaderNeverEnds(accepts, s, m, chunks[1..]);
      OneTime(HandshakeTooLarge, ReadsBeyond(chunks[1..], m, 16384));
    }
  }

  lemma NoBlankLine(s: seq<byte>, m: nat)
    requires m <= |s| && Unfinished(s)
    ensures BlankLine(s[..m], 0) == None
  {
    forall j: nat ensures !BlankLineAt(s[..m], j) {
      assert !BlankLineAt(s, j);
    }
  }

  lemma ReadWithoutHeader(accepts: seq<byte> -> bool, have: seq<byte>, chunk: seq<byte>)
    requires BlankLine(have + chunk, 0) == None
    ensures Feed(accepts, Conn(Upgrading, have, []), chunk)
            == (Conn(Upgrading, have + chunk, []), if |have + chunk| > 16384 then [HandshakeTooLarge] else [])
  {
    hide BlankLine, Drain;
  }

  lemma ReadOfRefused(accepts: seq<byte> -> bool, have: seq<byte>, chunk: seq<byte>)
    requires BlankLine(have + chunk, 0).Some? && !accepts((have + chunk)[..BlankLine(have + chunk, 0).value])
    ensures Feed(accepts, Conn(Upgrading, have, []), chunk) == (Conn(Upgrading, have + chunk, []), [HandshakeFailed])
  {
    hide BlankLine, Drain;
  }

  lemma OneTime(e: Effect, n: nat)
    ensures [e] + Times(e, n) == Times(e, n + 1) && [] + Times(e, n) == Times(e, n)
  {
  }

  /** The first blank line stands at end. */
  ghost predicate HeaderEnds(s: seq<byte>, end: nat) {
    BlankLineAt(s, end) && forall j: nat :: j < end ==> !BlankLineAt(s, j)
  }

  lemma EndInPrefix(s: seq<byte>, end: nat, n: nat)
    requires HeaderEnds(s, end) && n <= |s|
    ensures BlankLine(s[..n], 0) == if n < end + 4 then None else Some(end)
  {
    BlankLineInPrefix(s, end, n);
  }

  /** A refused header is reported once it is complete, and nothing behind it is parsed: every read from
      then on is answered with the failure alone. */
  lemma {:induction false} RefusedUpgrade(
    accepts: seq<byte> -> bool, s: seq<byte>, end: nat, n: nat, chunks: seq<seq<byte>>)
    requires HeaderEnds(s, end) && end + 4 <= |s| && !accepts(s[..end])
    requires end + 3 <= 16384 && n <= |s| && s[n..] == Concat(chunks)
    ensures Run(accepts, Conn(Upgrading, s[..n], []), chunks)
            == Times(HandshakeFailed, ReadsBeyond(chunks, n, end + 3))
    decreases |chunks|
  {
    hide HeaderEnds, BlankLine, Feed;
    if chunks != [] {
      var m := n + |chunks[0]|;
      NextChunk(s, n, chunks[0], Concat(chunks[1..]));
      EndInPrefix(s, end, m);
      if m >= end + 4 {
        CutHeader(s, end, m);
        ReadOfRefused(accepts, s[..n], chunks[0]);
      } else {
        ReadWithoutHeader(accepts, s[..n], chunks[0]);
      }
      RefusedUpgrade(accepts, s, end, m, chunks[1..]);
      OneTime(HandshakeFailed, ReadsBeyond(chunks[1..], m, end + 3));
    }
  }

  // ---------------------------------------------------------------- lists of frames

  datatype Written = Written(opcode: nat, k: key, payload: seq<byte>) {
    ghost predicate Valid() { opcode < 16 && |payload| <= MAX_PAYLOAD }
    function Bytes(): seq<byte> { FrameBytes(opcode, k, payload) }
    function AsFrame(): Frame { Frame(true, opcode, payload) }
  }

  function WriteAll(ws: seq<Written>): seq<byte> {
    if ws == [] then [] else ws[0].Bytes() + WriteAll(ws[1..])
  }

  /** The complete frames at the front of a buffer. */
  function Frames(buf: seq<byte>): seq<Frame>
    decreases |buf|
  {
    match ParseFrame(buf)
    case Complete(f, n) => [f] + Frames(buf[n..])
    case _ => []
  }

  function AsFrames(ws: seq<Written>): seq<Frame> {
    if ws == [] then [] else [ws[0].AsFrame()] + AsFrames(ws[1..])
  }

  /** Any list of frames written one after the other parses back to that list. */
  lemma {:induction false} FramesOfWritten(ws: seq<Written>)
    requires forall w :: w in ws ==> w.Valid()
    ensures Frames(WriteAll(ws)) == AsFrames(ws)
  {
    if ws != [] {
      assert ws[0].Valid();
      var more := WriteAll(ws[1..]);
      ParseWritten(ws[0].opcode, ws[0].k, ws[0].payload, more);
      hide ParseFrame, FrameBytes;
      assert (ws[0].Bytes() + more)[|ws[0].Bytes()|..] == more;
      FramesOfWritten(ws[1..]);
    }
  }

  /** The effects of a list of frames, up to a close frame. */
  function EffectsOf(fs: seq<Frame>): seq<Effect> {
    if fs == [] then []
    else if fs[0].opcode == 8 then EffectOf(fs[0])
    else EffectOf(fs[0]) + EffectsOf(fs[1..])
  }

  /** The frames end at a length that does not survive the conversion to `int`. */
  predicate Overlong(buf: seq<byte>)
    decreases |buf|
  {
    match ParseFrame(buf)
    case Incomplete => false
    case Unrepresentable => true
    case Complete(_, n) => Overlong(buf[n..])
  }

  lemma {:induction false} DrainIsEffectsOfFrames(buf: seq<byte>)
    ensures Drain(buf).effects == EffectsOf(Frames(buf)) + (if Drain(buf).lost then [LengthOverflow] else [])
    decreases |buf|
  {
    hide EffectOf;
    var p := ParseFrame(buf);
    if p.Complete? {
      hide ParseFrame;
      DrainIsEffectsOfFrames(buf[p.size..]);
      assert Frames(buf)[1..] == Frames(buf[p.size..]);
    }
  }

  // ---------------------------------------------------------------- text behind a close frame

  predicate NoText(fs: seq<Frame>) {
    forall i :: 0 <= i < |fs| ==> fs[i].opcode != 1
  }

  lemma {:induction false} SilentExact(buf: seq<byte>)
    ensures Silent(buf) <==> NoText(Frames(buf)) && !Overlong(buf)
    decreases |buf|
  {
    hide ParseFrame;
    var p := ParseFrame(buf);
    if p.Complete? {
      var rest := Frames(buf[p.size..]);
      SilentExact(buf[p.size..]);
      NoTextFirst(p.frame, rest);
    }
  }

  lemma NoTextFirst(f: Frame, rest: seq<Frame>)
    ensures NoText([f] + rest) <==> f.opcode != 1 && NoText(rest)
  {
    var fs := [f] + rest;
    assert fs[0] == f;
    if NoText(fs) {
      forall i | 0 <= i < |rest| ensures rest[i].opcode != 1 {
        assert rest[i] == fs[i + 1];
      }
    }
  }

  /** Without stopping at the close frame, the effects are independent of the reads if and only if
      no text frame, and no length overflow, stands behind the first close frame: one parse leaves
      those bytes in the buffer, while a later read takes them up. Pings there go unanswered. */
  lemma WholeRunsExact(accepts: seq<byte> -> bool, x: seq<byte>)
    ensures WholeRunsAgree(accepts, x)
            <==> (Drain(x).closed ==> NoText(Frames(Drain(x).rest)) && !Overlong(Drain(x).rest))
  {
    hide WholeRunsAgree, Drain, Frames, NoText, Overlong, Silent;
    WholeRunsDecided(accepts, x);
    SilentExact(Drain(x).rest);
  }

  const CLOSE_FRAME: seq<byte> := [0x88, 0]

  lemma DrainBehindClose(more: seq<byte>)
    ensures Drain(CLOSE_FRAME + more) == Drained([Close], more, true, false)
  {
    var x := CLOSE_FRAME + more;
    assert x[0] == 0x88 && x[1] == 0 && x[2..2] == [] && x[2..] == more;
    assert ParseFrame(x) == Complete(Frame(true, 8, []), 2);
    hide ParseFrame;
  }

  /** The failing case: any text frame directly behind a close frame. */
  lemma CloseThenText(accepts: seq<byte> -> bool, text: seq<byte>)
    requires ParseFrame(text).Complete? && ParseFrame(text).frame.opcode == 1
    ensures !WholeRunsAgree(accepts, CLOSE_FRAME + text)
  {
    hide WholeRunsAgree, ParseFrame, Drain;
    DrainBehindClose(text);
    WholeRunsDecided(accepts, CLOSE_FRAME + text);
  }

  /** The harmless case: pings and all other frames but text behind a close frame. */
  lemma CloseThenOthers(accepts: seq<byte> -> bool, ws: seq<Written>)
    requires forall i :: 0 <= i < |ws| ==> ws[i].Valid() && ws[i].opcode != 1
    ensures WholeRunsAgree(accepts, CLOSE_FRAME + WriteAll(ws))
  {
    hide WholeRunsAgree, Drain, WriteAll;
    DrainBehindClose(WriteAll(ws));
    WholeRunsDecided(accepts, CLOSE_FRAME + WriteAll(ws));
    WrittenSilent(ws);
  }

  lemma {:induction false} WrittenSilent(ws: seq<Written>)
    requires forall i :: 0 <= i < |ws| ==> ws[i].Valid() && ws[i].opcode != 1
    ensures Silent(WriteAll(ws))
  {
    if ws != [] {
      assert ws[0].Valid();
      var more := WriteAll(ws[1..]);
      ParseWritten(ws[0].opcode, ws[0].k, ws[0].payload, more);
      hide ParseFrame, FrameBytes;
      assert (ws[0].Bytes() + more)[|ws[0].Bytes()|..] == more;
      WrittenSilent(ws[1..]);
    }
  }

  // ---------------------------------------------------------------- pongs

  /** Payloads of the pings in front of the first close frame. */
  function Pings(fs: seq<Frame>): seq<seq<byte>> {
    if fs == [] || fs[0].opcode == 8 then []
    else (if fs[0].opcode == 9 then [fs[0].payload] else []) + Pings(fs[1..])
  }

  function Pongs(es: seq<Effect>): seq<seq<byte>> {
    if es == [] then []
    else (if es[0].Pong? then [es[0].payload] else []) + Pongs(es[1..])
  }

  lemma {:induction false} PongsAppend(a: seq<Effect>, b: seq<Effect>)
    ensures Pongs(a + b) == Pongs(a) + Pongs(b)
  {
    if a == [] {
      assert a + b == b;
    } else {
      PongsAppend(a[1..], b);
      assert (a + b)[0] == a[0] && (a + b)[1..] == a[1..] + b;
      var head := if a[0].Pong? then [a[0].payload] else [];
      assert head + (Pongs(a[1..]) + Pongs(b)) == (head + Pongs(a[1..])) + Pongs(b);
    }
  }

  lemma PongsOfOne(e: Effect)
    ensures Pongs([e]) == if e.Pong? then [e.payload] else []
  {
    assert [e][1..] == [];
  }

  lemma {:induction false} PongsOfEffects(fs: seq<Frame>)
    ensures Pongs(EffectsOf(fs)) == Pings(fs)
  {
    if fs != [] {
      PongsOfEffects(fs[1..]);
      var e, rest := EffectOf(fs[0]), EffectsOf(fs[1..]);
      PongsAppend(e, rest);
      if e != [] {
        assert e == [e[0]];
        PongsOfOne(e[0]);
      }
    }
  }

  lemma PongsOfDrain(buf: seq<byte>)
    ensures Pongs(Drain(buf).effects) == Pings(Frames(buf))
  {
    hide Drain, Frames, Pings, EffectsOf;
    DrainIsEffectsOfFrames(buf);
    PongsOfEffects(Frames(buf));
    PongsAppend(EffectsOf(Frames(buf)), if Drain(buf).lost then [LengthOverflow] else []);
    PongsOfOne(LengthOverflow);
  }

  lemma {:induction false} NoPongsHeard(es: seq<Effect>)
    ensures Pongs(Heard(false, es)) == []
  {
    if es != [] {
      NoPongsHeard(es[1..]);
      PongsAppend(if es[0].Pong? || es[0].Close? then [] else [es[0]], Heard(false, es[1..]));
      PongsOfOne(es[0]);
    }
  }

  /** A closing or lost connection sends no pongs, whatever arrives. */
  lemma {:induction false} NoPongsAfterClose(accepts: seq<byte> -> bool, c: Conn, chunks: seq<seq<byte>>)
    requires c.phase.Closing? || c.phase.Lost?
    ensures Pongs(Run(accepts, c, chunks)) == []
    decreases |chunks|
  {
    if chunks != [] {
      hide Drain, Heard;
      var (c', e) := Feed(accepts, c, chunks[0]);
      NoPongsHeard(Drain(c.recv + chunks[0]).effects);
      NoPongsAfterClose(accepts, c', chunks[1..]);
      PongsAppend(e, Run(accepts, c', chunks[1..]));
    }
  }

  lemma {:induction false} PongsUntilClose(es: seq<Effect>)
    requires !Ended(es)
    ensures Pongs(UntilClose(es)) == Pongs(es)
  {
    if es != [] {
      assert !Ends(es[0]) && !Ended(es[1..]);
      PongsUntilClose(es[1..]);
      PongsAppend([es[0]], UntilClose(es[1..]));
      PongsOfOne(es[0]);
    }
  }

  /** The effects of one read: those of a parse, and perhaps the connected signal. */
  ghost predicate OfOneRead(d: Drained, e: seq<Effect>) {
    UntilClose(d.effects) == d.effects && (e == d.effects || e == d.effects + [Connected])
  }

  lemma PongsOfRead(d: Drained, e: seq<Effect>)
    requires OfOneRead(d, e)
    ensures Pongs(UntilClose(e)) == Pongs(e) && (Ended(e) <==> Ended(d.effects))
  {
    hide UntilClose;
    if e == d.effects + [Connected] {
      UntilCloseAppend(d.effects, [Connected]);
      JustConnected();
      assert d.effects + [] == d.effects;
      PongsAppend(d.effects, [Connected]);
      PongsOfOne(Connected);
    }
  }

  lemma JustConnected()
    ensures UntilClose([Connected]) == []
  {
    assert [Connected][1..] == [];
  }

  /** Every pong is sent before the first close, however the stream is cut. */
  lemma {:induction false} PongsComeFirst(accepts: seq<byte> -> bool, c: Conn, chunks: seq<seq<byte>>)
    requires c.phase.Open? || c.phase.Upgrading?
    ensures Pongs(Run(accepts, c, chunks)) == Pongs(UntilClose(Run(accepts, c, chunks)))
    decreases |chunks|
  {
    if chunks != [] {
      var (c', e) := Feed(accepts, c, chunks[0]);
      var later := Run(accepts, c', chunks[1..]);
      ReadPhase(accepts, c, chunks[0]);
      hide Feed, UntilClose;
      PongsAppend(e, later);
      UntilCloseAppend(e, later);
      if Ended(e) {
        NoPongsAfterClose(accepts, c', chunks[1..]);
      } else {
        PongsComeFirst(accepts, c', chunks[1..]);
        PongsAppend(UntilClose(e), UntilClose(later));
      }
    }
  }

  /** One read sends its pongs before a close, and goes on exactly when it has not ended. */
  lemma ReadPhase(accepts: seq<byte> -> bool, c: Conn, chunk: seq<byte>)
    requires c.phase.Open? || c.phase.Upgrading?
    ensures var (c', e) := Feed(accepts, c, chunk);
            && Pongs(UntilClose(e)) == Pongs(e)
            && (if Ended(e) then c'.phase.Closing? || c'.phase.Lost? else c'.phase.Open? || c'.phase.Upgrading?)
  {
    var (c', e) := Feed(accepts, c, chunk);
    var h := c.handshake + chunk;
    hide BlankLine, UntilClose, Pongs;
    if c.phase.Open? {
      var buf := c.recv + chunk;
      DrainEffects(buf);
      HeardOpen(Drain(buf).effects);
      hide Drain, Heard;
      PongsOfRead(Drain(buf), e);
    } else if BlankLine(h, 0).Some? && accepts(h[..BlankLine(h, 0).value]) {
      var left := h[BlankLine(h, 0).value + 4..];
      if left != [] {
        DrainEffects(c.recv + left);
        hide Drain;
        PongsOfRead(Drain(c.recv + left), e);
      } else {
        assert e == [Connected];
        PongsUntilClose(e);
      }
    } else {
      PongsUntilClose(e);
    }
  }

  /** Section 5.5.3: for every stream with a good upgrade and every way to cut it into reads, the
      pongs ever sent answer exactly the pings in front of the first close frame, with the same
      payloads and in order. */
  lemma PongsAnswerPings(accepts: seq<byte> -> bool, s: seq<byte>, end: nat, chunks: seq<seq<byte>>)
    requires GoodStream(accepts, s, end) && Concat(chunks) == s
    ensures Pongs(Run(accepts, FRESH, chunks)) == Pings(Frames(s[end + 4..]))
  {
    hide Run, Drain, Frames, Concat;
    ChunkingIsInvisible(accepts, s, end, chunks);
    PongsComeFirst(accepts, FRESH, chunks);
    PongsOfDrain(s[end + 4..]);
  }
}
