/** Every packet that mdns_query_answer builds is walked by mdns_query_recv as the records written,
    with every compressed name expanding to the host or service name it stands for. */
module DnsAnswer {
  import opened Common
  import opened Dns
  import opened DnsNames
  import opened DnsPacket

  ghost predicate Proper(a: Answer) {
    var s := Pieces(a.service, 0);
    && a.Valid() && a.hostname != []
    && Good(Pieces(a.hostname, 0)) && Good(s) && s != [] && s[|s| - 1] == LOCAL
    && |Packet(a)| < 0x4000
  }

  // ---------------------------------------------------------------- the service name

  lemma HasWhole(x: seq<byte>, y: seq<byte>)
    ensures Has(x + y, |x|, y)
  {
  }

  lemma RecordsHere(a: Answer)
    ensures Has(Packet(a), 12, Question(a))
    ensures Has(Packet(a), a.FirstRecord(), AllBytes(Records(a)))
  {
    hide AllBytes, Has, Records, Header, NameBytes;
    HasWhole(Header(a), Question(a) + AllBytes(Records(a)));
    HasParts(Packet(a), 12, Question(a), AllBytes(Records(a)));
  }

  lemma ServiceHere(a: Answer)
    ensures Has(Packet(a), 12, NameBytes(a.service))
  {
    RecordsHere(a);
    if a.unicast {
      hide Packet, Has, NameBytes;
      HasParts(Packet(a), 12, NameBytes(a.service), Be16(PTR) + Be16(0x8001));
    } else {
      var rs := Records(a);
      assert rs[0] == PtrRec(a);
      hide Packet, Has, NameBytes, Records, Fixed;
      HasParts(Packet(a), 12, RecBytes(rs[0]), AllBytes(rs[1..]));
      HasParts(Packet(a), 12, rs[0].name, Fixed(rs[0]) + rs[0].data);
    }
  }

  lemma FirstByte(b: seq<byte>, at: nat, labels: seq<seq<byte>>, rest: seq<byte>)
    requires Good(labels) && labels != [] && Has(b, at, Wire(labels) + rest)
    ensures at < |b| && 0 < b[at] < 0xC0
  {
    var l := labels[0];
    HasParts(b, at, Wire(labels), rest);
    HasLabel(b, at, l, Wire(labels[1..]));
    assert b[at] == b[at..at + |Wire(labels)|][0];
  }

  lemma ServiceName(a: Answer)
    requires Proper(a)
    ensures NameAt(Packet(a), 12, Pieces(a.service, 0))
    ensures Skip(Packet(a), 12) == Some(12 + |NameBytes(a.service)|)
  {
    hide Pieces, Wire, Walk, Skip, Has, Packet, Good;
    var s, p := Pieces(a.service, 0), Packet(a);
    ServiceHere(a);
    FullName(p, 12, 12, s);
    FirstByte(p, 12, s, [0]);
  }

  lemma WireEnds(front: seq<seq<byte>>, l: seq<byte>)
    ensures Wire(front + [l]) + [0] == Wire(front) + (Wire([l]) + [0]) && |Wire([l])| == 1 + |l|
  {
    hide Wire;
    WireAppend(front, [l]);
    WireOne(l);
    Associate(Wire(front), Wire([l]), [0]);
  }

  lemma Associate(x: seq<byte>, y: seq<byte>, z: seq<byte>)
    ensures x + y + z == x + (y + z)
  {
  }

  lemma LastLabel(b: seq<byte>, at: nat, s: seq<seq<byte>>, l: seq<byte>)
    requires Good(s) && s != [] && s[|s| - 1] == l && Has(b, at, Wire(s) + [0])
    ensures |Wire(s)| >= 1 + |l| && NameAt(b, at + |Wire(s)| - 1 - |l|, [l])
  {
    hide Walk, Skip, Has, Wire;
    var front := s[..|s| - 1];
    assert s == front + [l];
    WireEnds(front, l);
    HasParts(b, at, Wire(front), Wire([l]) + [0]);
    var t := at + |Wire(front)|;
    FullName(b, t, t, [l]);
    FirstByte(b, t, [l], [0]);
  }

  /** `local_offset` is where the last label of the service starts. */
  lemma LocalName(a: Answer)
    requires Proper(a)
    ensures NameAt(Packet(a), a.LocalOffset(), [LOCAL]) && 12 <= a.LocalOffset()
  {
    hide Pieces, Has, Packet, Wire, NameAt, Good;
    ServiceHere(a);
    LastLabel(Packet(a), 12, Pieces(a.service, 0), LOCAL);
  }

  // ---------------------------------------------------------------- the records

  ghost function HostLabels(a: Answer): seq<seq<byte>> { Pieces(a.hostname, 0) }

  /** <hostname>.<service> and <hostname>.local */
  ghost function FullLabels(a: Answer): seq<seq<byte>> { HostLabels(a) + Pieces(a.service, 0) }
  ghost function LocalLabels(a: Answer): seq<seq<byte>> { HostLabels(a) + [LOCAL] }

  /** A host name with a compressed tail is itself a pointer target. */
  lemma TailedTarget(b: seq<byte>, at: nat, name: seq<byte>, t: nat, tail: seq<seq<byte>>)
    requires name != [] && Good(Pieces(name, 0)) && Has(b, at, TailedBytes(name, t))
    requires t < at && t < 0x4000 && NameAt(b, t, tail)
    ensures NameAt(b, at, Pieces(name, 0) + tail)
  {
    assert Pieces(name, 0) != [];
    TailedName(b, at, Pieces(name, 0), t, tail);
    hide Pieces, Wire, Walk, Skip, Has;
    FirstByte(b, at, Pieces(name, 0), RefBytes(t));
  }

  lemma PacketLength(a: Answer)
    ensures AllBytes(Records(a)) == RecBytes(PtrRec(a)) + (RecBytes(SrvRec(a)) + AllBytes(ExtraRecs(a)))
    ensures a.FirstRecord() + |AllBytes(Records(a))| == |Packet(a)|
  {
    var rs := Records(a);
    hide PtrRec, SrvRec, ExtraRecs, RecBytes, NameBytes;
    assert rs[1..] == [SrvRec(a)] + ExtraRecs(a) && rs[1..][1..] == ExtraRecs(a);
  }

  lemma Sizes(a: Answer)
    requires Proper(a)
    ensures Small(PtrRec(a)) && Small(SrvRec(a))
  {
    hide AllBytes, Records, RecBytes, NameBytes, TailedBytes, Pieces, Good, RefBytes, Be16;
    var p, r := PtrRec(a), SrvRec(a);
    assert |RecBytes(p)| + |RecBytes(r)| <= |Packet(a)| by { PacketLength(a); }
    RecLength(p);
    RecLength(r);
    hide Packet;
  }

  lemma ExtraSizes(a: Answer, i: nat)
    requires a.Valid() && i < |ExtraRecs(a)|
    ensures Small(ExtraRecs(a)[i])
  {
    hide RefBytes, NameBytes, TailedBytes;
  }

  lemma RecLength(r: Rec)
    ensures |RecBytes(r)| == |r.name| + 10 + |r.data|
  {
  }

  ghost function SecondRecord(a: Answer): nat { a.FullOffset() + |TailedBytes(a.hostname, 12)| }

  ghost function ThirdRecord(a: Answer): nat {
    a.HostOffset() + |TailedBytes(a.hostname, a.LocalOffset())|
  }

  lemma RecordParts(b: seq<byte>, at: nat, r: Rec, rest: seq<byte>)
    requires Has(b, at, RecBytes(r) + rest)
    ensures Has(b, at, r.name) && Has(b, at + |r.name| + 10, r.data) && Has(b, at + |r.name| + 10 + |r.data|, rest)
    ensures |RecBytes(r)| == |r.name| + 10 + |r.data|
  {
    hide Has, Fixed;
    HasParts(b, at, RecBytes(r), rest);
    HasParts(b, at, r.name, Fixed(r) + r.data);
    HasParts(b, at + |r.name|, Fixed(r), r.data);
  }

  /** Where the parts of the first record lie. */
  lemma PtrHere(a: Answer)
    ensures var p := Packet(a);
            && Has(p, a.FirstRecord(), a.FirstName())
            && Has(p, a.FullOffset(), TailedBytes(a.hostname, 12))
            && Has(p, SecondRecord(a), RecBytes(SrvRec(a)) + AllBytes(ExtraRecs(a)))
            && SecondRecord(a) == a.FirstRecord() + |RecBytes(PtrRec(a))|
  {
    RecordsHere(a);
    PacketLength(a);
    var p, r := Packet(a), PtrRec(a);
    hide Packet, Records, AllBytes, Has, SrvRec, ExtraRecs, RecBytes, NameBytes, TailedBytes, RefBytes;
    assert r.name == a.FirstName() && r.data == TailedBytes(a.hostname, 12);
    hide PtrRec;
    RecordParts(p, a.FirstRecord(), r, RecBytes(SrvRec(a)) + AllBytes(ExtraRecs(a)));
  }

  lemma SrvHere(a: Answer)
    ensures var p := Packet(a);
            && Has(p, SecondRecord(a), RefBytes(a.FullOffset()))
            && Has(p, a.HostOffset(), TailedBytes(a.hostname, a.LocalOffset()))
            && Has(p, ThirdRecord(a), AllBytes(ExtraRecs(a)))
            && ThirdRecord(a) == SecondRecord(a) + |RecBytes(SrvRec(a))|
  {
    hide Packet, Records, AllBytes, Has, ExtraRecs, RecBytes, NameBytes, TailedBytes, RefBytes, Be16;
    var p, r, at := Packet(a), SrvRec(a), SecondRecord(a);
    assert Has(p, at, RecBytes(r) + AllBytes(ExtraRecs(a))) by { PtrHere(a); }
    RecordParts(p, at, r, AllBytes(ExtraRecs(a)));
    HasParts(p, at + 12, Be16(0) + Be16(0) + Be16(a.port), TailedBytes(a.hostname, a.LocalOffset()));
  }

  /** Every offset a pointer can carry lies in the packet, in order. */
  lemma OffsetsInOrder(a: Answer)
    requires Proper(a)
    ensures 12 <= a.LocalOffset() < a.FullOffset() < SecondRecord(a) < a.HostOffset() < ThirdRecord(a) <= |Packet(a)|
    ensures a.FirstRecord() < a.FullOffset() && (a.unicast ==> 12 < a.FirstRecord())
  {
    LocalName(a);
    SrvHere(a);
    HasFits(Packet(a), ThirdRecord(a), AllBytes(ExtraRecs(a)));
    hide Packet, AllBytes, ExtraRecs, Has, NameAt, SrvRec, RecBytes, NameBytes, Pieces;
    TailedLength(a.hostname, 12);
    TailedLength(a.hostname, a.LocalOffset());
  }

  lemma TailedLength(name: seq<byte>, t: nat)
    ensures |TailedBytes(name, t)| >= 2
  {
  }

  /** Both compressed host names are targets for the later records. */
  lemma TargetsKnown(a: Answer)
    requires Proper(a)
    ensures NameAt(Packet(a), a.FullOffset(), FullLabels(a))
    ensures NameAt(Packet(a), a.HostOffset(), LocalLabels(a))
  {
    OffsetsInOrder(a);
    ServiceName(a);
    LocalName(a);
    PtrHere(a);
    SrvHere(a);
    hide Packet, Has, NameAt, Pieces, TailedBytes, Skip, AllBytes, ExtraRecs, RecBytes, SrvRec;
    TailedTarget(Packet(a), a.FullOffset(), a.hostname, 12, Pieces(a.service, 0));
    TailedTarget(Packet(a), a.HostOffset(), a.hostname, a.LocalOffset(), [LOCAL]);
  }

  lemma FirstNamed(a: Answer)
    requires Proper(a)
    ensures Walk(Packet(a), a.FirstRecord(), a.FirstRecord()) == Labels(Pieces(a.service, 0))
    ensures Skip(Packet(a), a.FirstRecord()) == Some(a.FirstRecord() + |a.FirstName()|)
  {
    ServiceName(a);
    if a.unicast {
      FirstNamedByRef(a);
    } else {
      hide Packet, Pieces, TailedBytes, Skip, Walk, NameBytes, Good;
    }
  }

  lemma FirstNamedByRef(a: Answer)
    requires Proper(a) && a.unicast
    ensures Walk(Packet(a), a.FirstRecord(), a.FirstRecord()) == Labels(Pieces(a.service, 0))
    ensures Skip(Packet(a), a.FirstRecord()) == Some(a.FirstRecord() + |a.FirstName()|)
  {
    hide Packet, Has, NameAt, Pieces, TailedBytes, Skip, Walk, NameBytes, RefBytes, Good;
    var p, at := Packet(a), a.FirstRecord();
    assert 12 < at by { OffsetsInOrder(a); }
    assert NameAt(p, 12, Pieces(a.service, 0)) by { ServiceName(a); }
    assert Has(p, at, RefBytes(12)) by { PtrHere(a); }
    FollowRef(p, at, at, 12, Pieces(a.service, 0));
  }

  lemma SecondNamed(a: Answer)
    requires Proper(a)
    ensures Walk(Packet(a), SecondRecord(a), SecondRecord(a)) == Labels(FullLabels(a))
    ensures Skip(Packet(a), SecondRecord(a)) == Some(SecondRecord(a) + 2)
  {
    OffsetsInOrder(a);
    SrvHere(a);
    TargetsKnown(a);
    hide Packet, Has, NameAt, Pieces, TailedBytes, Skip, Walk, AllBytes, ExtraRecs, RecBytes, SrvRec, NameBytes;
    FollowRef(Packet(a), SecondRecord(a), SecondRecord(a), a.FullOffset(), FullLabels(a));
  }

  /** Records whose names are pointers to one of two known names. */
  lemma {:induction false} RefsNamed(b: seq<byte>, at: nat, rs: seq<Rec>, names: seq<seq<seq<byte>>>,
                                     t: nat, x: seq<seq<byte>>, u: nat, y: seq<seq<byte>>)
    requires Has(b, at, AllBytes(rs)) && |names| == |rs|
    requires t < at && u < at && t < 0x4000 && u < 0x4000 && NameAt(b, t, x) && NameAt(b, u, y)
    requires forall i :: 0 <= i < |rs| ==>
               Small(rs[i]) && ((rs[i].name == RefBytes(t) && names[i] == x) || (rs[i].name == RefBytes(u)
                   && names[i] == y))
    ensures Named(b, at, rs, names)
    decreases rs
  {
    hide Has, NameAt, RefBytes, Small, Walk, Skip, Fixed;
    if rs != [] {
      var r := rs[0];
      HasParts(b, at, RecBytes(r), AllBytes(rs[1..]));
      HasParts(b, at, r.name, Fixed(r) + r.data);
      if r.name == RefBytes(t) && names[0] == x {
        FollowRef(b, at, at, t, x);
      } else {
        FollowRef(b, at, at, u, y);
      }
      RefsNamed(b, at + |RecBytes(r)|, rs[1..], names[1..], t, x, u, y);
    }
  }

  /** The names the additional records stand for. */
  ghost function ExtraNames(a: Answer): seq<seq<seq<byte>>> {
    (if a.UseIpv4() then [LocalLabels(a)] else [])
    + (if a.ipv6.Some? then [LocalLabels(a)] else [])
    + (if a.UseTxt() then [FullLabels(a)] else [])
  }

  lemma ExtraForms(a: Answer, i: nat)
    requires i < |ExtraRecs(a)|
    ensures |ExtraNames(a)| == |ExtraRecs(a)| == a.Extras()
    ensures var r := ExtraRecs(a)[i]; var name := ExtraNames(a)[i];
            || (r.name == RefBytes(a.HostOffset()) && name == LocalLabels(a))
            || (r.name == RefBytes(a.FullOffset()) && name == FullLabels(a))
  {
    hide FullLabels, LocalLabels, RefBytes, Pieces, NameBytes, TailedBytes;
  }

  lemma ExtrasNamed(a: Answer)
    requires Proper(a)
    ensures Named(Packet(a), ThirdRecord(a), ExtraRecs(a), ExtraNames(a))
  {
    OffsetsInOrder(a);
    SrvHere(a);
    TargetsKnown(a);
    var rs, names := ExtraRecs(a), ExtraNames(a);
    hide Packet, Has, NameAt, Pieces, TailedBytes, AllBytes, RecBytes, SrvRec, PtrRec, NameBytes, Named, Small,
         FullLabels, LocalLabels, RefBytes, Good;
    assert |names| == |rs|;
    hide ExtraRecs, ExtraNames;
    forall i | 0 <= i < |rs| ensures Small(rs[i]) {
      ExtraSizes(a, i);
    }
    forall i | 0 <= i < |rs|
      ensures || (rs[i].name == RefBytes(a.HostOffset()) && names[i] == LocalLabels(a))
              || (rs[i].name == RefBytes(a.FullOffset()) && names[i] == FullLabels(a))
    {
      ExtraForms(a, i);
    }
    RefsNamed(Packet(a), ThirdRecord(a), rs, names, a.HostOffset(), LocalLabels(a), a.FullOffset(), FullLabels(a));
  }

  // ---------------------------------------------------------------- the walk of the packet

  lemma HeaderFields(a: Answer)
    requires a.Valid()
    ensures var p := Packet(a);
            && |p| >= 12 && U16(p, 0) == (if a.unicast then a.queryId else 0)
            && U16(p, 4) == (if a.unicast then 1 else 0)
            && U16(p, 6) == 1 && U16(p, 8) == 0 && U16(p, 10) == 1 + a.Extras()
  {
    HeaderParts(a);
    hide Packet, Has, Be16, U16;
    var p := Packet(a);
    HasFits(p, 10, Be16(1 + a.Extras()));
    U16Be16(p, 0, if a.unicast then a.queryId else 0);
    U16Be16(p, 4, if a.unicast then 1 else 0);
    U16Be16(p, 6, 1);
    U16Be16(p, 8, 0);
    U16Be16(p, 10, 1 + a.Extras());
  }

  lemma HasFront(x: seq<byte>, y: seq<byte>)
    ensures Has(x + y, 0, x)
  {
  }

  lemma HeaderParts(a: Answer)
    ensures var p := Packet(a);
            && Has(p, 0, Be16(if a.unicast then a.queryId else 0)) && Has(p, 2, Be16(0x8400))
            && Has(p, 4, Be16(if a.unicast then 1 else 0))
            && Has(p, 6, Be16(1)) && Has(p, 8, Be16(0)) && Has(p, 10, Be16(1 + a.Extras()))
  {
    hide Has, Be16, Question, AllBytes, Records;
    var p := Packet(a);
    HasFront(Header(a), Question(a) + AllBytes(Records(a)));
    assert Has(p, 0, Header(a));
    hide Packet;
    var h1 := Be16(if a.unicast then a.queryId else 0);
    var h2 := h1 + Be16(0x8400);
    var h3 := h2 + Be16(if a.unicast then 1 else 0);
    var h4 := h3 + Be16(1);
    var h5 := h4 + Be16(0);
    assert Header(a) == h5 + Be16(1 + a.Extras());
    HasParts(p, 0, h5, Be16(1 + a.Extras()));
    HasParts(p, 0, h4, Be16(0));
    HasParts(p, 0, h3, Be16(1));
    HasParts(p, 0, h2, Be16(if a.unicast then 1 else 0));
    HasParts(p, 0, h1, Be16(0x8400));
  }

  ghost function Names(a: Answer): seq<seq<seq<byte>>> {
    [Pieces(a.service, 0), FullLabels(a)] + ExtraNames(a)
  }

  lemma FirstWalked(a: Answer)
    requires Proper(a)
    ensures RecordsParse(Packet(a), a.FirstRecord(), 1) == Some(([EntryOf(PtrRec(a), a.FirstRecord())],
        SecondRecord(a)))
    ensures Small(PtrRec(a))
  {
    hide Proper, Packet, Has, Walk, Skip, Pieces, NameBytes, TailedBytes, RefBytes, Good, Small, Fixed, RecBytes;
    var p, at, r := Packet(a), a.FirstRecord(), PtrRec(a);
    FirstNamed(a);
    Sizes(a);
    NamedAlone(p, at, r, Pieces(a.service, 0));
    assert Has(p, at, RecBytes(r) + (RecBytes(SrvRec(a)) + AllBytes(ExtraRecs(a)))) by {
      RecordsHere(a);
      PacketLength(a);
    }
    HasParts(p, at, RecBytes(r), RecBytes(SrvRec(a)) + AllBytes(ExtraRecs(a)));
    OneRecord(r, at);
    RecordsWalked(p, at, [r], [Pieces(a.service, 0)]);
    assert SecondRecord(a) == at + |RecBytes(r)| by { PtrHere(a); }
  }

  lemma NamedAlone(p: seq<byte>, at: nat, r: Rec, name: seq<seq<byte>>)
    requires Small(r) && Walk(p, at, at) == Labels(name) && Skip(p, at) == Some(at + |r.name|)
    ensures Named(p, at, [r], [name])
  {
    hide Walk, Skip, Small, RecBytes;
    assert [r][1..] == [] && [name][1..] == [];
  }

  lemma OneRecord(r: Rec, at: nat)
    ensures AllBytes([r]) == RecBytes(r) && Entries([r], at) == [EntryOf(r, at)]
  {
    assert [r][1..] == [];
    assert RecBytes(r) + [] == RecBytes(r);
  }

  lemma OthersNamed(a: Answer)
    requires Proper(a)
    ensures Named(Packet(a), SecondRecord(a), [SrvRec(a)] + ExtraRecs(a), [FullLabels(a)] + ExtraNames(a))
  {
    hide Packet, Has, Walk, Skip, Pieces, NameBytes, TailedBytes, Good, RecBytes, Small, ExtraRecs, ExtraNames,
         FullLabels;
    SecondNamed(a);
    ExtrasNamed(a);
    Sizes(a);
    assert ThirdRecord(a) == SecondRecord(a) + |RecBytes(SrvRec(a))| by { SrvHere(a); }
    var rs, names := [SrvRec(a)] + ExtraRecs(a), [FullLabels(a)] + ExtraNames(a);
    assert rs[1..] == ExtraRecs(a) && names[1..] == ExtraNames(a);
    assert |SrvRec(a).name| == 2;
  }

  lemma OthersWalked(a: Answer)
    requires Proper(a)
    ensures RecordsParse(Packet(a), SecondRecord(a), 1 + a.Extras())
            == Some((Entries([SrvRec(a)] + ExtraRecs(a), SecondRecord(a)), |Packet(a)|))
  {
    hide Packet, Has, Walk, Skip, Pieces, NameBytes, TailedBytes, RefBytes, Good, RecBytes, Named, Records, SrvRec;
    assert |ExtraRecs(a)| == a.Extras();
    hide ExtraRecs;
    OthersNamed(a);
    var p, at, rs := Packet(a), SecondRecord(a), [SrvRec(a)] + ExtraRecs(a);
    assert rs[0] == SrvRec(a) && rs[1..] == ExtraRecs(a);
    assert Has(p, at, AllBytes(rs)) by { PtrHere(a); }
    RecordsWalked(p, at, rs, [FullLabels(a)] + ExtraNames(a));
    assert at + |AllBytes(rs)| == |p| by {
      PacketLength(a);
      PtrHere(a);
    }
  }

  /** The walk of mdns_query_recv sees exactly the records written (PTR, SRV, then A, AAAA and TXT
      as present), at their places, and ends at the length sent. The callback is handed the PTR
      record and then the others up to the first with which it asks to stop: all of them if it
      never does. */
  lemma AnswerIsWalked(a: Answer, onlyId: int, stops: Callback)
    requires Proper(a) && (onlyId <= 0 || onlyId == if a.unicast then a.queryId else 0)
    ensures var es := Entries(Records(a), a.FirstRecord());
            && |es| >= 2
            && QueryRecv(Packet(a), onlyId, stops) == Some((es[..1] + Handed(stops, es[..1], es[1..]), |Packet(a)|))
            && ((forall h :: !stops(h)) ==> QueryRecv(Packet(a), onlyId, stops) == Some((es, |Packet(a)|)))
  {
    hide Proper, Packet, QueryRecv, Records, SrvRec, ExtraRecs, PtrRec, EntryOf, Entries, Handed, Asking;
    AnswerSections(a, onlyId, stops);
    EntriesSplit(a);
    var es := Entries(Records(a), a.FirstRecord());
    AskingAll(stops, es[..1], es[1..]);
    if Asking(stops, es[..1], es[1..]) {
      HandedAll(stops, es[..1], es[1..]);
    }
    assert es[..1] + es[1..] == es;
  }

  /** Section by section: one answer, no authority record, the others as additional records. */
  lemma AnswerSections(a: Answer, onlyId: int, stops: Callback)
    requires Proper(a) && (onlyId <= 0 || onlyId == if a.unicast then a.queryId else 0)
    ensures var e := EntryOf(PtrRec(a), a.FirstRecord());
            var others := Entries([SrvRec(a)] + ExtraRecs(a), SecondRecord(a));
            QueryRecv(Packet(a), onlyId, stops) == Some(([e] + Handed(stops, [e], others), |Packet(a)|))
  {
    hide Packet, Skip, Pieces, NameBytes, TailedBytes, RefBytes, Good, RecBytes, U16, SrvRec, ExtraRecs, PtrRec,
         EntryOf, Entries, Handed, Asking;
    HeaderFields(a);
    if a.unicast {
      ServiceName(a);
    }
    FirstWalked(a);
    OthersWalked(a);
    assert RecordsParse(Packet(a), SecondRecord(a), 0) == Some(([], SecondRecord(a)));
    hide RecordsParse;
    FirstHanded(stops, EntryOf(PtrRec(a), a.FirstRecord()));
  }

  lemma FirstHanded(stops: Callback, e: Entry)
    ensures Handed(stops, [], [e]) == [e] && [e] + Handed(stops, [e], []) == [e]
  {
    hide Handed, Asking;
    NothingHanded(stops, [e]);
    NothingHanded(stops, []);
    HandedOne(stops, [], [], e);
    assert [] + [e] == [e];
  }

  lemma EntriesSplit(a: Answer)
    requires Proper(a)
    ensures var es, others := Entries(Records(a), a.FirstRecord()), Entries([SrvRec(a)] + ExtraRecs(a),
        SecondRecord(a));
            |es| >= 2 && es[..1] == [EntryOf(PtrRec(a), a.FirstRecord())] && es[1..] == others
  {
    hide Proper, SrvRec, ExtraRecs, PtrRec, EntryOf, RecBytes, Entries, NameBytes;
    var rs := [SrvRec(a)] + ExtraRecs(a);
    assert Records(a) == [PtrRec(a)] + rs;
    assert SecondRecord(a) == a.FirstRecord() + |RecBytes(PtrRec(a))| by { PtrHere(a); }
    EntriesFirst(PtrRec(a), rs, a.FirstRecord());
    EntriesFirst(SrvRec(a), ExtraRecs(a), SecondRecord(a));
  }

  lemma EntriesFirst(r: Rec, rs: seq<Rec>, at: nat)
    ensures Entries([r] + rs, at) == [EntryOf(r, at)] + Entries(rs, at + |RecBytes(r)|)
  {
    assert ([r] + rs)[1..] == rs;
  }

  lemma {:induction false} EntryExpands(b: seq<byte>, at: nat, rs: seq<Rec>, names: seq<seq<seq<byte>>>, i: nat)
    requires Has(b, at, AllBytes(rs)) && Named(b, at, rs, names) && i < |rs|
    ensures |Entries(rs, at)| == |rs| == |names|
    ensures var e := Entries(rs, at)[i];
            && Walk(b, e.nameOffset, e.nameOffset) == Labels(names[i])
            && e.kind == rs[i].kind && e.class_ == rs[i].class_ && e.ttl == rs[i].ttl
            && Has(b, e.dataOffset, rs[i].data) && e.dataLength == |rs[i].data|
    decreases rs
  {
    hide Has, Walk, Skip, RecBytes, Small;
    RecordWalked(b, at, rs[0], AllBytes(rs[1..]));
    if i > 0 {
      EntryExpands(b, at + |RecBytes(rs[0])|, rs[1..], names[1..], i - 1);
    } else if |rs| > 1 {
      EntryExpands(b, at + |RecBytes(rs[0])|, rs[1..], names[1..], 0);
    } else {
      assert names[1..] == [];
    }
  }

  /** Every record's name expands to what it stands for, and its data are the data written. */
  lemma AnswerExpands(a: Answer, i: nat)
    requires Proper(a) && i < |Records(a)|
    ensures |Names(a)| == |Records(a)| == |Entries(Records(a), a.FirstRecord())|
    ensures var e := Entries(Records(a), a.FirstRecord())[i]; var r := Records(a)[i];
            && Walk(Packet(a), e.nameOffset, e.nameOffset) == Labels(Names(a)[i])
            && e.kind == r.kind && e.class_ == r.class_ && e.ttl == r.ttl
            && Has(Packet(a), e.dataOffset, r.data) && e.dataLength == |r.data|
  {
    hide Packet, Has, Walk, Skip, Pieces, NameBytes, TailedBytes, RefBytes, Good, RecBytes, Small, SrvRec,
         ExtraRecs, ExtraNames, FullLabels;
    var p, at, rs, names := Packet(a), a.FirstRecord(), Records(a), Names(a);
    RecordsHere(a);
    OthersNamed(a);
    FirstNamed(a);
    Sizes(a);
    assert rs[0] == PtrRec(a) && rs[1..] == [SrvRec(a)] + ExtraRecs(a);
    assert names[0] == Pieces(a.service, 0) && names[1..] == [FullLabels(a)] + ExtraNames(a);
    assert SecondRecord(a) == at + |RecBytes(rs[0])| by { PtrHere(a); }
    assert Named(p, at, rs, names);
    hide Records, Names, Named;
    EntryExpands(p, at, rs, names, i);
  }

  /** The compressed names inside the data: the PTR record points to <hostname>.<service>, the SRV
      record, after priority, weight and port, to <hostname>.local. */
  lemma AnswerTargets(a: Answer)
    requires Proper(a)
    ensures var es := Entries(Records(a), a.FirstRecord());
            && |es| >= 2 && es[0].kind == PTR && es[1].kind == SRV
            && Walk(Packet(a), es[0].dataOffset, es[0].dataOffset) == Labels(FullLabels(a))
            && Walk(Packet(a), es[1].dataOffset + 6, es[1].dataOffset + 6) == Labels(LocalLabels(a))
  {
    hide Packet, Walk, Pieces, NameBytes, TailedBytes, Good, RecBytes, ExtraRecs, FullLabels, LocalLabels;
    TargetsKnown(a);
    assert SecondRecord(a) == a.FirstRecord() + |RecBytes(PtrRec(a))| by { PtrHere(a); }
    var rs, at := Records(a), a.FirstRecord();
    assert rs[0] == PtrRec(a) && rs[1] == SrvRec(a) && rs[1..][0] == SrvRec(a);
    assert Entries(rs, at) == [EntryOf(rs[0], at)] + Entries(rs[1..], SecondRecord(a));
    assert Entries(rs[1..], SecondRecord(a))[0] == EntryOf(rs[1], SecondRecord(a));
  }

  // ---------------------------------------------------------------- the fields as numbers

  ghost predicate Says(p: seq<byte>, e: Entry, kind: nat, class_: nat, ttl: nat) {
    e.kind == kind && e.class_ == class_ && e.ttl == ttl
  }

  ghost predicate Holds(p: seq<byte>, e: Entry, data: seq<byte>) {
    e.dataLength == |data| && Has(p, e.dataOffset, data)
  }

  lemma RecordsAre(a: Answer)
    ensures var rs, n4, n6 := Records(a), if a.UseIpv4() then 1 else 0, if a.ipv6.Some? then 1 else 0;
            && |rs| == 2 + n4 + n6 + (if a.UseTxt() then 1 else 0)
            && rs[0] == PtrRec(a) && rs[1] == SrvRec(a)
            && (a.UseIpv4() ==> rs[2] == Ipv4Recs(a)[0])
            && (a.ipv6.Some? ==> rs[2 + n4] == Ipv6Recs(a)[0])
            && (a.UseTxt() ==> rs[2 + n4 + n6] == TxtRecs(a)[0])
  {
  }

  /** The walked entries in numbers: types 12, 33, 1, 28 and 16; class 1, with the cache-flush bit in a
      unicast answer; a time to live of 60, and 10 in a unicast answer. */
  lemma AnswerKinds(a: Answer)
    requires Proper(a)
    ensures var es, p := Entries(Records(a), a.FirstRecord()), Packet(a);
            var class_, ttl := if a.unicast then 0x8001 else 1, if a.unicast then 10 else 60;
            var n4, n6 := if a.ipv4 != [0, 0, 0, 0] then 1 else 0, if a.ipv6.Some? then 1 else 0;
            && |es| == 2 + n4 + n6 + (if 0 < |a.txt| <= 255 then 1 else 0)
            && Says(p, es[0], 12, class_, ttl) && Says(p, es[1], 33, class_, ttl)
            && (n4 == 1 ==> Says(p, es[2], 1, class_, ttl))
            && (n6 == 1 ==> Says(p, es[2 + n4], 28, class_, ttl))
            && (0 < |a.txt| <= 255 ==> Says(p, es[2 + n4 + n6], 16, class_, ttl))
  {
    RecordsAre(a);
    forall i | 0 <= i < |Records(a)|
      ensures |Entries(Records(a), a.FirstRecord())| == |Records(a)|
      ensures var e, r := Entries(Records(a), a.FirstRecord())[i], Records(a)[i];
              e.kind == r.kind && e.class_ == r.class_ && e.ttl == r.ttl
    {
      AnswerExpands(a, i);
    }
    assert |Entries(Records(a), a.FirstRecord())| == |Records(a)| by { AnswerExpands(a, 0); }
    hide Packet, Entries, Records, Proper, NameBytes, TailedBytes, RefBytes, Be16;
  }

  /** Their data: port behind two zero words in the SRV record, the addresses, and the text behind its
      length. */
  lemma AnswerData(a: Answer)
    requires Proper(a)
    ensures var es, p := Entries(Records(a), a.FirstRecord()), Packet(a);
            var n4, n6 := if a.ipv4 != [0, 0, 0, 0] then 1 else 0, if a.ipv6.Some? then 1 else 0;
            && |es| == 2 + n4 + n6 + (if 0 < |a.txt| <= 255 then 1 else 0)
            && es[1].dataLength >= 6 && Has(p, es[1].dataOffset, [0, 0, 0, 0, a.port / 256, a.port % 256])
            && (n4 == 1 ==> Holds(p, es[2], a.ipv4))
            && (n6 == 1 ==> Holds(p, es[2 + n4], a.ipv6.value))
            && (0 < |a.txt| <= 255 ==> Holds(p, es[2 + n4 + n6], [|a.txt| as byte] + a.txt))
  {
    RecordsAre(a);
    forall i | 0 <= i < |Records(a)|
      ensures |Entries(Records(a), a.FirstRecord())| == |Records(a)|
      ensures Holds(Packet(a), Entries(Records(a), a.FirstRecord())[i], Records(a)[i].data)
    {
      AnswerExpands(a, i);
    }
    assert |Entries(Records(a), a.FirstRecord())| == |Records(a)| by { AnswerExpands(a, 0); }
    var es, p := Entries(Records(a), a.FirstRecord()), Packet(a);
    assert Holds(p, es[1], SrvRec(a).data);
    SrvData(a, p, es[1]);
    hide Packet, Entries, Records, Proper, NameBytes, TailedBytes, RefBytes, Be16, Has, SrvRec;
  }

  lemma SrvData(a: Answer, p: seq<byte>, e: Entry)
    requires a.port < 0x1_0000 && Holds(p, e, SrvRec(a).data)
    ensures e.dataLength >= 6 && Has(p, e.dataOffset, [0, 0, 0, 0, a.port / 256, a.port % 256])
  {
    BETwo(0);
    BETwo(a.port);
    var lead := Be16(0) + Be16(0) + Be16(a.port);
    assert lead == [0, 0, 0, 0, a.port / 256, a.port % 256];
    hide TailedBytes, Has;
    HasParts(p, e.dataOffset, lead, TailedBytes(a.hostname, a.LocalOffset()));
  }

  /** The header and the question in numbers: an authoritative response with one answer; a unicast answer
      repeats the identifier and the question, a multicast one has neither. */
  lemma AnswerHeader(a: Answer)
    requires Proper(a)
    ensures var p := Packet(a);
            && |p| >= 12 && U16(p, 0) == (if a.unicast then a.queryId else 0) && U16(p, 2) == 0x8400
            && U16(p, 4) == (if a.unicast then 1 else 0) && U16(p, 6) == 1 && U16(p, 8) == 0
            && U16(p, 10) == 1 + (if a.ipv4 != [0, 0, 0, 0] then 1 else 0) + (if a.ipv6.Some? then 1 else 0)
                             + (if 0 < |a.txt| <= 255 then 1 else 0)
    ensures a.unicast ==> var p, q := Packet(a), 12 + |NameBytes(a.service)|;
                          |p| >= q + 4 && U16(p, q) == 12 && U16(p, q + 2) == 0x8001
  {
    HeaderFields(a);
    FlagsHere(a);
    if a.unicast {
      QuestionHere(a);
    }
    hide Packet, Proper, U16, NameBytes;
  }

  lemma FlagsHere(a: Answer)
    ensures |Packet(a)| >= 4 && U16(Packet(a), 2) == 0x8400
  {
    HeaderParts(a);
    hide Packet, Be16;
    U16Be16(Packet(a), 2, 0x8400);
  }

  lemma HasMiddle(x: seq<byte>, y: seq<byte>, z: seq<byte>)
    ensures Has(x + (y + z), |x|, y)
  {
    assert (x + (y + z))[|x|..|x| + |y|] == y;
  }

  lemma QuestionHere(a: Answer)
    requires a.unicast
    ensures var p, q := Packet(a), 12 + |NameBytes(a.service)|;
            |p| >= q + 4 && U16(p, q) == 12 && U16(p, q + 2) == 0x8001
  {
    var name, rest := NameBytes(a.service), AllBytes(Records(a));
    var front := Header(a) + name;
    hide AllBytes, Records, NameBytes, Header, Be16;
    assert Packet(a) == front + (Be16(12) + (Be16(0x8001) + rest));
    HasMiddle(front, Be16(12), Be16(0x8001) + rest);
    U16Be16(Packet(a), |front|, 12);
    assert Packet(a) == (front + Be16(12)) + (Be16(0x8001) + rest);
    HasMiddle(front + Be16(12), Be16(0x8001), rest);
    U16Be16(Packet(a), |front| + 2, 0x8001);
  }
}
