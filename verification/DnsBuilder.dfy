/** mdns_query_answer as it works: a buffer filled through a moving position, with the record
    lengths patched in afterwards. */
module DnsBuilder {
  import opened Common
  import opened Dns
  import opened DnsNames
  import opened DnsPacket
  import opened DnsAnswer

  /** How a step ends: with the next position, with the function returning -1, or with a write
      through a null pointer or past the buffer. */
  datatype Step = Done(next: nat) | Refused | Stray

  lemma ImageGrown(before: seq<byte>, at: nat, w: seq<byte>)
    requires at + |w| <= |before|
    ensures Image(before, at, w)[..at + |w|] == before[..at] + w
  {
  }

  /** Write at the position. */
  method Append(buf: array<byte>, pos: nat, bytes: seq<byte>) returns (next: nat)
    requires pos + |bytes| <= buf.Length
    modifies buf
    ensures next == pos + |bytes| && buf[..next] == old(buf[..pos]) + bytes
  {
    ghost var before := buf[..];
    Put(buf, pos, bytes);
    ImageGrown(before, pos, bytes);
    assert before[..pos] == old(buf[..pos]);
    next := pos + |bytes|;
  }

  method AppendName(buf: array<byte>, pos: nat, capacity: nat, name: seq<byte>) returns (next: Option<nat>)
    requires pos <= capacity <= buf.Length
    modifies buf
    ensures next == if pos + |NameBytes(name)| <= capacity then Some(pos + |NameBytes(name)|) else None
    ensures next.Some? ==> buf[..next.value] == old(buf[..pos]) + NameBytes(name)
  {
    hide NameBytes, Image;
    ghost var before := buf[..];
    next := StringMake(buf, pos, capacity - pos, name);
    if next.Some? {
      ImageGrown(before, pos, NameBytes(name));
      assert before[..pos] == old(buf[..pos]);
    }
  }

  method AppendRef(buf: array<byte>, pos: nat, capacity: nat, offset: nat) returns (next: Option<nat>)
    requires pos <= capacity <= buf.Length
    modifies buf
    ensures next == if pos + 2 <= capacity then Some(pos + 2) else None
    ensures next.Some? ==> buf[..next.value] == old(buf[..pos]) + RefBytes(offset)
  {
    hide RefBytes, Image;
    ghost var before := buf[..];
    next := StringMakeRef(buf, pos, capacity - pos, offset);
    if next.Some? {
      ImageGrown(before, pos, RefBytes(offset));
      assert before[..pos] == old(buf[..pos]);
    }
  }

  method AppendTailed(buf: array<byte>, pos: nat, capacity: nat, name: seq<byte>, offset: nat) returns (next: Step)
    requires pos <= capacity <= buf.Length
    modifies buf
    ensures pos + |TailedBytes(name, offset)| <= capacity ==> next.Done?
    ensures next.Done? ==> next.next == pos + |TailedBytes(name, offset)| <= capacity
    ensures next.Done? ==> buf[..next.next] == old(buf[..pos]) + TailedBytes(name, offset)
  {
    hide TailedBytes, Image;
    ghost var before := buf[..];
    var made := StringMakeWithRef(buf, pos, capacity - pos, name, offset);
    match made {
      case Next(at) =>
        ImageGrown(before, pos, TailedBytes(name, offset));
        assert before[..pos] == old(buf[..pos]);
        next := Done(at);
      case Null => next := Refused;
      case Wild => next := Stray;
    }
  }

  /** Overwrite two bytes before the position. */
  method Patch(buf: array<byte>, at: nat, pos: nat, bytes: seq<byte>)
    requires at + |bytes| <= pos <= buf.Length
    modifies buf
    ensures buf[..pos] == old(buf[..at]) + bytes + old(buf[..pos])[at + |bytes|..]
  {
    Put(buf, at, bytes);
  }

  /** The fixed part and data of a record whose data end in a compressed host name: the length is
      left open, the data are written, and the length is filled in. `lead` is what the SRV record
      puts before the name. */
  method AppendHostRecord(buf: array<byte>, pos: nat, capacity: nat, r: Rec,
                          lead: seq<byte>, name: seq<byte>, offset: nat) returns (next: Step)
    requires pos <= capacity <= buf.Length && r.data == lead + TailedBytes(name, offset)
    modifies buf
    ensures pos + 10 + |r.data| + 11 <= capacity ==> next.Done?
    ensures next.Done? ==> next.next == pos + 10 + |r.data| <= capacity
    ensures next.Done? ==> buf[..next.next] == old(buf[..pos]) + (Fixed(r) + r.data)
  {
    hide TailedBytes, Be16, Be32;
    if capacity - pos <= 10 {
      return Refused;
    }
    if capacity - pos < 10 + |lead| {
      return Stray;
    }
    ghost var start := buf[..pos];
    var head := Be16(r.kind) + Be16(r.class_) + Be32(r.ttl);
    var at := Append(buf, pos, head);
    ghost var filled := buf[..at + 2];
    var after := Append(buf, at + 2, lead);
    next := AppendTailed(buf, after, capacity, name, offset);
    if !next.Done? {
      return;
    }
    assert buf[..next.next] == filled + lead + TailedBytes(name, offset);
    if capacity - next.next <= 10 {
      return Refused;
    }
    ghost var tail := buf[..next.next];
    Patch(buf, at, next.next, Be16(next.next - (at + 2)));
    Patched(start, head, filled, lead, TailedBytes(name, offset), Be16(|r.data|), tail, buf[..next.next]);
  }

  lemma Patched(start: seq<byte>, head: seq<byte>, filled: seq<byte>, lead: seq<byte>, name: seq<byte>,
                length: seq<byte>, tail: seq<byte>, result: seq<byte>)
    requires |head| == 8 && |length| == 2 && |filled| == |start| + 10 && filled[..|start| + 8] == start + head
    requires tail == filled + lead + name
    requires result == tail[..|start| + 8] + length + tail[|start| + 10..]
    ensures result == start + (head + length + (lead + name))
  {
    assert tail[..|start| + 8] == start + head;
    assert tail[|start| + 10..] == lead + name;
  }

  /** An additional record whose name is a pointer. */
  method AppendExtra(buf: array<byte>, pos: nat, capacity: nat, r: Rec, offset: nat) returns (next: Step)
    requires pos <= capacity <= buf.Length && r.name == RefBytes(offset)
    modifies buf
    ensures next == if pos + |RecBytes(r)| < capacity then Done(pos + |RecBytes(r)|) else Refused
    ensures next.Done? ==> buf[..next.next] == old(buf[..pos]) + RecBytes(r)
  {
    hide RefBytes, Fixed;
    var at := AppendRef(buf, pos, capacity, offset);
    if at.None? || capacity - at.value <= 10 + |r.data| {
      return Refused;
    }
    ghost var start := old(buf[..pos]);
    var fixed := Append(buf, at.value, Fixed(r));
    var end := Append(buf, fixed, r.data);
    Joined(start, r.name, Fixed(r), r.data);
    next := Done(end);
  }

  lemma Joined(w: seq<byte>, x: seq<byte>, y: seq<byte>, z: seq<byte>)
    ensures w + x + y + z == w + (x + (y + z))
  {
  }

  // ---------------------------------------------------------------- the packet

  /** The packet up to the data of its first x bytes of records. */
  ghost function Upto(a: Answer, x: seq<byte>): seq<byte> {
    Header(a) + (Question(a) + x)
  }

  lemma UptoMore(a: Answer, x: seq<byte>, y: seq<byte>)
    ensures Upto(a, x) + y == Upto(a, x + y)
  {
    Glue(Header(a), Question(a), x, y);
  }

  lemma Glue(h: seq<byte>, q: seq<byte>, x: seq<byte>, y: seq<byte>)
    ensures h + (q + x) + y == h + (q + (x + y))
  {
  }

  /** The header, the question of a unicast answer, and the name of the PTR record. */
  method AppendFront(a: Answer, buf: array<byte>, capacity: nat) returns (next: Step)
    requires 12 <= capacity <= buf.Length
    modifies buf
    ensures a.FirstRecord() + |a.FirstName()| + 11 <= capacity ==> next.Done?
    ensures next.Done? ==> next.next == a.FirstRecord() + |a.FirstName()| <= capacity
    ensures next.Done? ==> buf[..next.next] == Upto(a, a.FirstName())
  {
    hide Header, NameBytes, RefBytes, Be16;
    var pos := Append(buf, 0, Header(a));
    assert buf[..pos] == Header(a);
    var named := AppendName(buf, pos, capacity, a.service);
    if named.None? {
      return Refused;
    }
    if !a.unicast {
      assert [] + NameBytes(a.service) == NameBytes(a.service);
      return Done(named.value);
    }
    if capacity - named.value <= 4 {
      return Refused;
    }
    var asked := Append(buf, named.value, Be16(PTR) + Be16(0x8001));
    var end := AppendRef(buf, asked, capacity, 12);
    if end.None? {
      return Refused;
    }
    FrontParts(Header(a), NameBytes(a.service), Be16(PTR) + Be16(0x8001), RefBytes(12));
    next := Done(end.value);
  }

  lemma FrontParts(h: seq<byte>, n: seq<byte>, q: seq<byte>, r: seq<byte>)
    ensures h + n + q + r == h + (n + q + r)
  {
  }

  /** The PTR and SRV records. `full` and `host` are the offsets the later records point to. */
  method AppendServiceRecords(a: Answer, buf: array<byte>, pos: nat, capacity: nat)
    returns (next: Step, full: nat, host: nat)
    requires pos <= capacity <= buf.Length && pos == a.FirstRecord() + |a.FirstName()|
    requires buf[..pos] == Upto(a, a.FirstName())
    modifies buf
    ensures var both := RecBytes(PtrRec(a)) + RecBytes(SrvRec(a));
            && (a.FirstRecord() + |both| + 11 <= capacity ==> next.Done?)
            && (next.Done? ==> next.next == a.FirstRecord() + |both| <= capacity && buf[..next.next] == Upto(a, both))
    ensures next.Done? ==> full == a.FullOffset() && host == a.HostOffset()
  {
    hide TailedBytes, RefBytes, NameBytes, Fixed, Upto, Be16;
    ghost var p, s := PtrRec(a), SrvRec(a);
    full, host := pos + 10, 0;
    var ptr := Rec(a.FirstName(), PTR, a.Class(), a.Ttl(), TailedBytes(a.hostname, 12));
    assert [] + TailedBytes(a.hostname, 12) == TailedBytes(a.hostname, 12);
    next := AppendHostRecord(buf, pos, capacity, ptr, [], a.hostname, 12);
    if !next.Done? {
      return;
    }
    UptoMore(a, p.name, Fixed(p) + p.data);
    var named := AppendRef(buf, next.next, capacity, full);
    if named.None? {
      return Refused, full, host;
    }
    UptoMore(a, RecBytes(p), s.name);
    var lead := Be16(0) + Be16(0) + Be16(a.port);
    host := named.value + 10 + 6;
    var srv := Rec(RefBytes(full), SRV, a.Class(), a.Ttl(), lead + TailedBytes(a.hostname, a.LocalOffset()));
    next := AppendHostRecord(buf, named.value, capacity, srv, lead, a.hostname, a.LocalOffset());
    if next.Done? {
      UptoMore(a, RecBytes(p) + s.name, Fixed(s) + s.data);
      DnsAnswer.Associate(RecBytes(p), s.name, Fixed(s) + s.data);
    }
  }

  lemma {:induction false} AllBytesAppend(x: seq<Rec>, y: seq<Rec>)
    ensures AllBytes(x + y) == AllBytes(x) + AllBytes(y)
  {
    hide RecBytes;
    if x == [] {
      assert x + y == y;
    } else {
      AllBytesAppend(x[1..], y);
      assert (x + y)[0] == x[0] && (x + y)[1..] == x[1..] + y;
      Associate(RecBytes(x[0]), AllBytes(x[1..]), AllBytes(y));
    }
  }

  /** At most one more record, when there is one to write. */
  method AppendOptional(a: Answer, buf: array<byte>, pos: nat, capacity: nat, rs: seq<Rec>, offset: nat,
                        ghost x: seq<byte>) returns (next: Step)
    requires pos <= capacity <= buf.Length && |rs| <= 1 && (rs != [] ==> rs[0].name == RefBytes(offset))
    requires buf[..pos] == Upto(a, x)
    modifies buf
    ensures pos + |AllBytes(rs)| < capacity ==> next.Done?
    ensures next.Done? ==> next.next == pos + |AllBytes(rs)| <= capacity
    ensures next.Done? ==> buf[..next.next] == Upto(a, x + AllBytes(rs))
  {
    hide RecBytes, RefBytes, Upto;
    if rs == [] {
      assert x + [] == x;
      return Done(pos);
    }
    OneRecord(rs[0], 0);
    assert rs == [rs[0]];
    next := AppendExtra(buf, pos, capacity, rs[0], offset);
    UptoMore(a, x, RecBytes(rs[0]));
  }

  /** mdns_query_answer: what is sent, if anything is, is the packet; and a buffer with eleven bytes
      to spare is always enough. */
  method QueryAnswer(a: Answer, buf: array<byte>, capacity: nat) returns (next: Step)
    requires capacity <= buf.Length
    modifies buf
    ensures next.Done? ==> next.next == |Packet(a)| <= capacity && buf[..next.next] == Packet(a)
    ensures |Packet(a)| + 11 <= capacity && 44 + |a.service| + |a.hostname| <= capacity ==> next.Done?
  {
    hide Packet, AllBytes, RecBytes, PtrRec, SrvRec, Ipv4Recs, Ipv6Recs, TxtRecs;
    if capacity < 12 + 32 + |a.service| + |a.hostname| {
      return Refused;
    }
    ghost var both := RecBytes(PtrRec(a)) + RecBytes(SrvRec(a));
    PacketIs(a);
    next := AppendFront(a, buf, capacity);
    if !next.Done? {
      return;
    }
    var full, host;
    next, full, host := AppendServiceRecords(a, buf, next.next, capacity);
    if !next.Done? {
      return;
    }
    ghost var x := both;
    ExtraNamesAre(a);
    next := AppendOptional(a, buf, next.next, capacity, Ipv4Recs(a), host, x);
    if !next.Done? {
      return;
    }
    x := x + AllBytes(Ipv4Recs(a));
    next := AppendOptional(a, buf, next.next, capacity, Ipv6Recs(a), host, x);
    if !next.Done? {
      return;
    }
    x := x + AllBytes(Ipv6Recs(a));
    next := AppendOptional(a, buf, next.next, capacity, TxtRecs(a), full, x);
  }

  lemma ExtraNamesAre(a: Answer)
    ensures |Ipv4Recs(a)| <= 1 && (Ipv4Recs(a) != [] ==> Ipv4Recs(a)[0].name == RefBytes(a.HostOffset()))
    ensures |Ipv6Recs(a)| <= 1 && (Ipv6Recs(a) != [] ==> Ipv6Recs(a)[0].name == RefBytes(a.HostOffset()))
    ensures |TxtRecs(a)| <= 1 && (TxtRecs(a) != [] ==> TxtRecs(a)[0].name == RefBytes(a.FullOffset()))
  {
  }

  /** The packet in the order in which it is written. */
  lemma PacketIs(a: Answer)
    ensures var both := RecBytes(PtrRec(a)) + RecBytes(SrvRec(a));
            && Packet(a) == Upto(a, both + AllBytes(Ipv4Recs(a)) + AllBytes(Ipv6Recs(a)) + AllBytes(TxtRecs(a)))
            && |Packet(a)| == a.FirstRecord() + |both| + |AllBytes(Ipv4Recs(a))| + |AllBytes(Ipv6Recs(a))|
                + |AllBytes(TxtRecs(a))|
            && a.FirstRecord() + |a.FirstName()| <= a.FirstRecord() + |both|
  {
    PacketLength(a);
    AllBytesAppend(Ipv4Recs(a) + Ipv6Recs(a), TxtRecs(a));
    AllBytesAppend(Ipv4Recs(a), Ipv6Recs(a));
    RecLength(PtrRec(a));
    assert PtrRec(a).name == a.FirstName();
    hide AllBytes, RecBytes, PtrRec, SrvRec, Ipv4Recs, Ipv6Recs, TxtRecs, Records;
    Gather(RecBytes(PtrRec(a)), RecBytes(SrvRec(a)), AllBytes(Ipv4Recs(a)), AllBytes(Ipv6Recs(a)),
        AllBytes(TxtRecs(a)));
  }

  lemma Gather(p: seq<byte>, s: seq<byte>, x: seq<byte>, y: seq<byte>, z: seq<byte>)
    ensures p + (s + (x + y + z)) == p + s + x + y + z
  {
  }
}
