/** The answer packet of mdns_query_answer and the walk of mdns_query_recv over it. */
module DnsPacket {
  import opened Common
  import opened Dns
  import opened DnsNames

  const PTR := 12
  const SRV := 33
  const A := 1
  const AAAA := 28
  const TXT := 16

  const LOCAL: seq<byte> := [108, 111, 99, 97, 108]

  function Be16(v: nat): (r: seq<byte>)
    ensures |r| == 2
  {
    BEBytes(2, v)
  }

  function Be32(v: nat): (r: seq<byte>)
    ensures |r| == 4
  {
    BEBytes(4, v)
  }

  lemma Be32Halves(v: nat)
    requires v < 0x1_0000
    ensures Be32(v) == Be16(0) + Be16(v)
  {
    BEFour(v);
    BETwo(v);
    BETwo(0);
  }

  // ---------------------------------------------------------------- what is sent

  /** The arguments of mdns_query_answer. An IPv4 address of zero and a text that is empty or over
      255 bytes count as absent. */
  datatype Answer = Answer(
    unicast: bool, queryId: nat, service: seq<byte>, hostname: seq<byte>,
    ipv4: seq<byte>, ipv6: Option<seq<byte>>, port: nat, txt: seq<byte>)
  {
    predicate Valid() {
      && queryId < 0x1_0000 && port < 0x1_0000 && |ipv4| == 4
      && (ipv6.Some? ==> |ipv6.value| == 16)
    }
    predicate UseIpv4() { ipv4 != [0, 0, 0, 0] }
    predicate UseTxt() { 0 < |txt| <= 255 }
    function Extras(): nat {
      (if UseIpv4() then 1 else 0) + (if ipv6.Some? then 1 else 0) + (if UseTxt() then 1 else 0)
    }
    function Class(): nat { if unicast then 0x8001 else 1 }
    function Ttl(): nat { if unicast then 10 else 60 }
    /** The service name always follows the header. */
    function LocalOffset(): nat { 12 + |NameBytes(service)| - 7 }
    function FirstRecord(): nat { if unicast then 12 + |NameBytes(service)| + 4 else 12 }
    function FirstName(): seq<byte> { if unicast then RefBytes(12) else NameBytes(service) }
    function FullOffset(): nat { FirstRecord() + |FirstName()| + 10 }
    function HostOffset(): nat { FullOffset() + |TailedBytes(hostname, 12)| + 2 + 10 + 6 }
  }

  function Header(a: Answer): (r: seq<byte>)
    ensures |r| == 12
  {
    Be16(if a.unicast then a.queryId else 0) + Be16(0x8400) + Be16(if a.unicast then 1 else 0)
    + Be16(1) + Be16(0) + Be16(1 + a.Extras())
  }

  function Question(a: Answer): seq<byte> {
    if a.unicast then NameBytes(a.service) + (Be16(PTR) + Be16(0x8001)) else []
  }

  /** A resource record: its name as bytes, type, class, time to live and data. */
  datatype Rec = Rec(name: seq<byte>, kind: nat, class_: nat, ttl: nat, data: seq<byte>)

  function Fixed(r: Rec): (b: seq<byte>)
    ensures |b| == 10
  {
    Be16(r.kind) + Be16(r.class_) + Be32(r.ttl) + Be16(|r.data|)
  }

  function RecBytes(r: Rec): seq<byte> {
    r.name + (Fixed(r) + r.data)
  }

  function AllBytes(rs: seq<Rec>): seq<byte> {
    if rs == [] then [] else RecBytes(rs[0]) + AllBytes(rs[1..])
  }

  function PtrRec(a: Answer): Rec {
    Rec(a.FirstName(), PTR, a.Class(), a.Ttl(), TailedBytes(a.hostname, 12))
  }

  function SrvRec(a: Answer): Rec {
    Rec(RefBytes(a.FullOffset()), SRV, a.Class(), a.Ttl(),
        Be16(0) + Be16(0) + Be16(a.port) + TailedBytes(a.hostname, a.LocalOffset()))
  }

  function Ipv4Recs(a: Answer): seq<Rec> {
    if a.UseIpv4() then [Rec(RefBytes(a.HostOffset()), A, a.Class(), a.Ttl(), a.ipv4)] else []
  }

  function Ipv6Recs(a: Answer): seq<Rec> {
    if a.ipv6.Some? then [Rec(RefBytes(a.HostOffset()), AAAA, a.Class(), a.Ttl(), a.ipv6.value)] else []
  }

  function TxtRecs(a: Answer): seq<Rec> {
    if a.UseTxt() then [Rec(RefBytes(a.FullOffset()), TXT, a.Class(), a.Ttl(), [|a.txt| as byte] + a.txt)] else []
  }

  function ExtraRecs(a: Answer): seq<Rec> {
    Ipv4Recs(a) + Ipv6Recs(a) + TxtRecs(a)
  }

  function Records(a: Answer): seq<Rec> {
    [PtrRec(a), SrvRec(a)] + ExtraRecs(a)
  }

  function Packet(a: Answer): seq<byte> {
    Header(a) + (Question(a) + AllBytes(Records(a)))
  }

  // ---------------------------------------------------------------- the walk

  function U16(b: seq<byte>, at: nat): (r: nat)
    requires at + 2 <= |b|
    ensures r < 0x1_0000
  {
    256 * (b[at] as int) + b[at + 1] as int
  }

  /** What mdns_records_parse finds and hands to its callback. */
  datatype Entry = Entry(nameOffset: nat, nameLength: nat, kind: nat, class_: nat, ttl: nat,
                         dataOffset: nat, dataLength: nat)

  function EntryAt(b: seq<byte>, nameOffset: nat, at: nat): Entry
    requires nameOffset <= at && at + 10 <= |b|
  {
    Entry(nameOffset, at - nameOffset, U16(b, at), U16(b, at + 2),
          0x1_0000 * U16(b, at + 4) + U16(b, at + 6), at + 10, U16(b, at + 8))
  }

  /** A name that cannot be skipped leaves the offset where it was. None where the code would read
      past the end of the packet. */
  function RecordsParse(b: seq<byte>, offset: nat, records: nat): Option<(seq<Entry>, nat)>
    decreases records
  {
    if records == 0 then Some(([], offset))
    else
      var after := Skip(b, offset);
      var at := if after.Some? then after.value else offset;
      if at + 10 > |b| then None
      else
        var e := EntryAt(b, offset, at);
        match RecordsParse(b, at + 10 + e.dataLength, records - 1)
        case None => None
        case Some((es, end)) => Some(([e] + es, end))
  }

  function Join(es: seq<Entry>, r: Option<(seq<Entry>, nat)>): Option<(seq<Entry>, nat)> {
    match r
    case None => None
    case Some((more, end)) => Some((es + more, end))
  }

  lemma JoinOne(es: seq<Entry>, e: Entry, r: Option<(seq<Entry>, nat)>)
    ensures Join(es, Join([e], r)) == Join(es + [e], r)
    ensures Join([], r) == r
  {
    if r.Some? {
      assert es + ([e] + r.value.0) == es + [e] + r.value.0;
      assert [] + r.value.0 == r.value.0;
    }
  }

  /** A callback, by its answer to the list of entries it has been handed so far: true asks for no
      more of the section. */
  type Callback = seq<Entry> -> bool

  /** No entry of the section, handed over after those in `before`, has made the callback stop. */
  predicate Asking(stops: Callback, before: seq<Entry>, es: seq<Entry>) {
    es == [] || (Asking(stops, before, es[..|es| - 1]) && !stops(before + es))
  }

  /** The entries of a section that are handed over. */
  function Handed(stops: Callback, before: seq<Entry>, es: seq<Entry>): seq<Entry> {
    if es == [] then []
    else
      var front := es[..|es| - 1];
      Handed(stops, before, front) + (if Asking(stops, before, front) then [es[|es| - 1]] else [])
  }

  lemma {:induction false} HandedAll(stops: Callback, before: seq<Entry>, es: seq<Entry>)
    requires Asking(stops, before, es)
    ensures Handed(stops, before, es) == es
  {
    if es != [] {
      HandedAll(stops, before, es[..|es| - 1]);
    }
  }

  lemma HandedOne(stops: Callback, before: seq<Entry>, es: seq<Entry>, e: Entry)
    ensures Asking(stops, before, es + [e]) <==> Asking(stops, before, es) && !stops(before + (es + [e]))
    ensures Handed(stops, before, es + [e])
            == if Asking(stops, before, es) then Handed(stops, before, es) + [e] else Handed(stops, before, es)
  {
    assert (es + [e])[..|es|] == es;
  }

  /** It is a prefix of the section that ends with the first entry to make the callback stop. */
  lemma {:induction false} HandedIsPrefix(stops: Callback, before: seq<Entry>, es: seq<Entry>)
    ensures var h := Handed(stops, before, es);
            && h <= es
            && (es != [] ==> h != [] && Asking(stops, before, h[..|h| - 1]))
            && (|h| < |es| ==> !Asking(stops, before, h))
  {
    if es != [] {
      var front := es[..|es| - 1];
      HandedIsPrefix(stops, before, front);
      assert es == front + [es[|es| - 1]];
      HandedOne(stops, before, front, es[|es| - 1]);
      if Asking(stops, before, front) {
        HandedAll(stops, before, front);
      }
      hide Asking, Handed;
      NothingHanded(stops, before);
      var h := Handed(stops, before, front);
      assert |h| == |front| ==> h == front;
    }
  }

  lemma {:induction false} AskingAll(stops: Callback, before: seq<Entry>, es: seq<Entry>)
    ensures Asking(stops, before, es) <==> forall k :: 0 < k <= |es| ==> !stops(before + es[..k])
  {
    if es != [] {
      var front := es[..|es| - 1];
      AskingAll(stops, before, front);
      assert forall k :: 0 < k <= |front| ==> front[..k] == es[..k];
      assert es[..|es|] == es;
    }
  }

  /** mdns_records_parse: the entries handed over and the offset after the section. */
  function Section(b: seq<byte>, offset: nat, records: nat, stops: Callback,
      before: seq<Entry>): Option<(seq<Entry>, nat)> {
    var r := RecordsParse(b, offset, records);
    if r.None? then None else Some((Handed(stops, before, r.value.0), r.value.1))
  }

  method ParseRecords(b: seq<byte>, offset: nat, records: nat, stops: Callback, before: seq<Entry>)
    returns (r: Option<(seq<Entry>, nat)>)
    ensures r == Section(b, offset, records, stops, before)
  {
    hide Skip, EntryAt, Asking, Handed;
    var at: nat := offset;
    var handed: seq<Entry>, asking := [], true;
    ghost var es: seq<Entry> := [];
    var i := 0;
    NothingHanded(stops, before);
    assert Join([], RecordsParse(b, offset, records)) == RecordsParse(b, offset, records) by {
      JoinOne([], Entry(0, 0, 0, 0, 0, 0, 0), RecordsParse(b, offset, records));
    }
    while i < records
      invariant i <= records
      invariant RecordsParse(b, offset, records) == Join(es, RecordsParse(b, at, records - i))
      invariant handed == Handed(stops, before, es) && asking == Asking(stops, before, es)
    {
      var nameOffset := at;
      var after := StringSkip(b, at);
      if after.Some? {
        at := after.value;
      }
      if at + 10 > |b| {
        return None;
      }
      var e := EntryAt(b, nameOffset, at);
      JoinOne(es, e, RecordsParse(b, at + 10 + e.dataLength, records - i - 1));
      HandedOne(stops, before, es, e);
      if asking {
        HandedAll(stops, before, es);
      }
      at := at + 10 + e.dataLength;
      if asking {
        handed := handed + [e];
        if stops(before + handed) {
          asking := false;
        }
      }
      es := es + [e];
      i := i + 1;
    }
    assert es + [] == es;
    r := Some((handed, at));
  }

  lemma NothingHanded(stops: Callback, before: seq<Entry>)
    ensures Asking(stops, before, []) && Handed(stops, before, []) == []
  {
  }

  /** mdns_query_recv on a received packet: the entries handed to the callback and the offset at
      which the walk ends; None where the code would read past the end of the packet. A callback
      that asks to stop is handed no more of the section, and the walk goes on. */
  function QueryRecv(b: seq<byte>, onlyId: int, stops: Callback): Option<(seq<Entry>, nat)> {
    if |b| < 12 then None
    else if onlyId > 0 && U16(b, 0) != onlyId then Some(([], 0))
    else if U16(b, 4) > 1 then Some(([], 0))
    else
      var asked := if U16(b, 4) == 0 then Some(12) else Skip(b, 12);
      if asked.None? then Some(([], 0))
      else
        var first := if U16(b, 4) == 0 then 12 else asked.value + 4;
        Sections(b, first, U16(b, 6), U16(b, 8), U16(b, 10), stops)
  }

  /** The three sections, one behind the other. */
  function Sections(b: seq<byte>, first: nat, answers: nat, authority: nat, additional: nat, stops: Callback):
    Option<(seq<Entry>, nat)>
  {
    match Section(b, first, answers, stops, [])
    case None => None
    case Some((a, second)) =>
      match Section(b, second, authority, stops, a)
      case None => None
      case Some((u, third)) =>
        match Section(b, third, additional, stops, a + u)
        case None => None
        case Some((d, end)) => Some((a + u + d, end))
  }

  method ReceiveQuery(b: seq<byte>, onlyId: int, stops: Callback) returns (r: Option<(seq<Entry>, nat)>)
    ensures r == QueryRecv(b, onlyId, stops)
  {
    hide Section, Skip, U16;
    if |b| < 12 {
      return None;
    }
    if (onlyId > 0 && U16(b, 0) != onlyId) || U16(b, 4) > 1 {
      return Some(([], 0));
    }
    var at := 12;
    if U16(b, 4) == 1 {
      var after := StringSkip(b, at);
      if after.None? {
        return Some(([], 0));
      }
      at := after.value + 4;
    }
    var answers := ParseRecords(b, at, U16(b, 6), stops, []);
    if answers.None? {
      return None;
    }
    var handed := answers.value.0;
    var authority := ParseRecords(b, answers.value.1, U16(b, 8), stops, handed);
    if authority.None? {
      return None;
    }
    handed := handed + authority.value.0;
    var additional := ParseRecords(b, authority.value.1, U16(b, 10), stops, handed);
    if additional.None? {
      return None;
    }
    return Some((handed + additional.value.0, additional.value.1));
  }

  // ---------------------------------------------------------------- walking what was written

  lemma U16Be16(b: seq<byte>, at: nat, v: nat)
    requires v < 0x1_0000 && Has(b, at, Be16(v))
    ensures U16(b, at) == v
  {
    BETwo(v);
    assert b[at] == b[at..at + 2][0] && b[at + 1] == b[at..at + 2][1];
  }

  predicate Small(r: Rec) {
    r.kind < 0x1_0000 && r.class_ < 0x1_0000 && r.ttl < 0x1_0000 && |r.data| < 0x1_0000
  }

  function EntryOf(r: Rec, at: nat): Entry {
    Entry(at, |r.name|, r.kind, r.class_, r.ttl, at + |r.name| + 10, |r.data|)
  }

  function Entries(rs: seq<Rec>, at: nat): seq<Entry> {
    if rs == [] then [] else [EntryOf(rs[0], at)] + Entries(rs[1..], at + |RecBytes(rs[0])|)
  }

  lemma FixedAt(b: seq<byte>, at: nat, r: Rec)
    requires Small(r) && Has(b, at, Fixed(r))
    ensures U16(b, at) == r.kind && U16(b, at + 2) == r.class_ && U16(b, at + 8) == |r.data|
    ensures 0x1_0000 * U16(b, at + 4) + U16(b, at + 6) == r.ttl
  {
    hide Has, U16;
    var k, c, t, n := Be16(r.kind), Be16(r.class_), Be32(r.ttl), Be16(|r.data|);
    Be32Halves(r.ttl);
    hide Be32;
    assert Fixed(r) == k + (c + (Be16(0) + (Be16(r.ttl) + n)));
    hide Be16, Fixed;
    HasParts(b, at, k, c + (Be16(0) + (Be16(r.ttl) + n)));
    HasParts(b, at + 2, c, Be16(0) + (Be16(r.ttl) + n));
    HasParts(b, at + 4, Be16(0), Be16(r.ttl) + n);
    HasParts(b, at + 6, Be16(r.ttl), n);
    U16Be16(b, at, r.kind);
    U16Be16(b, at + 2, r.class_);
    U16Be16(b, at + 4, 0);
    U16Be16(b, at + 6, r.ttl);
    U16Be16(b, at + 8, |r.data|);
  }

  /** The names of a list of records expand as intended, and skipping each name ends where its
      fixed part begins. */
  ghost predicate Named(b: seq<byte>, at: nat, rs: seq<Rec>, names: seq<seq<seq<byte>>>)
    decreases rs
  {
    if rs == [] || names == [] then rs == [] && names == []
    else
      && Small(rs[0]) && Walk(b, at, at) == Labels(names[0]) && Skip(b, at) == Some(at + |rs[0].name|)
      && Named(b, at + |RecBytes(rs[0])|, rs[1..], names[1..])
  }

  lemma RecordWalked(b: seq<byte>, at: nat, r: Rec, rest: seq<byte>)
    requires Small(r) && Skip(b, at) == Some(at + |r.name|) && Has(b, at, RecBytes(r) + rest)
    ensures at + |r.name| + 10 <= |b| && EntryAt(b, at, at + |r.name|) == EntryOf(r, at)
    ensures Has(b, at + |r.name| + 10, r.data) && Has(b, at + |RecBytes(r)|, rest)
  {
    hide Has, Skip, Fixed;
    HasParts(b, at, RecBytes(r), rest);
    HasParts(b, at, r.name, Fixed(r) + r.data);
    HasParts(b, at + |r.name|, Fixed(r), r.data);
    FixedAt(b, at + |r.name|, r);
    assert at + |r.name| + 10 <= |b| by {
      HasFits(b, at + |r.name|, Fixed(r));
    }
  }

  lemma HasFits(b: seq<byte>, at: nat, piece: seq<byte>)
    requires Has(b, at, piece)
    ensures at + |piece| <= |b|
  {
  }

  /** The walker sees exactly the records written, and ends where they end. */
  lemma {:induction false} RecordsWalked(b: seq<byte>, at: nat, rs: seq<Rec>, names: seq<seq<seq<byte>>>)
    requires Has(b, at, AllBytes(rs)) && Named(b, at, rs, names)
    ensures RecordsParse(b, at, |rs|) == Some((Entries(rs, at), at + |AllBytes(rs)|))
    decreases rs
  {
    hide Has, Walk, Skip, EntryAt, EntryOf, RecBytes;
    if rs != [] {
      var next := at + |RecBytes(rs[0])|;
      RecordWalked(b, at, rs[0], AllBytes(rs[1..]));
      RecordsWalked(b, next, rs[1..], names[1..]);
      EntryData(rs[0], at);
    }
  }

  lemma EntryData(r: Rec, at: nat)
    ensures EntryOf(r, at).dataLength == |r.data| && at + |r.name| + 10 + |r.data| == at + |RecBytes(r)|
  {
  }

  // ---------------------------------------------------------------- whole packets

  /** A list of records written at an offset, with names that can be walked. */
  ghost predicate Written(b: seq<byte>, at: nat, rs: seq<Rec>) {
    Has(b, at, AllBytes(rs)) && exists names :: Named(b, at, rs, names)
  }

  lemma WrittenWalked(b: seq<byte>, at: nat, rs: seq<Rec>)
    requires Written(b, at, rs)
    ensures RecordsParse(b, at, |rs|) == Some((Entries(rs, at), at + |AllBytes(rs)|))
  {
    var names :| Named(b, at, rs, names);
    hide RecordsParse, Entries, AllBytes, Has, Named;
    RecordsWalked(b, at, rs, names);
  }

  /** The records begin behind the header, or behind its one question. */
  predicate BeginsAt(b: seq<byte>, first: nat) {
    |b| >= 12 &&
    if U16(b, 4) == 0 then first == 12 else U16(b, 4) == 1 && first >= 4 && Skip(b, 12) == Some(first - 4)
  }

  ghost predicate NeverStops(stops: Callback) {
    forall h :: !stops(h)
  }

  lemma SectionWalked(b: seq<byte>, at: nat, rs: seq<Rec>, stops: Callback, before: seq<Entry>)
    requires Written(b, at, rs) && NeverStops(stops)
    ensures Section(b, at, |rs|, stops, before) == Some((Entries(rs, at), at + |AllBytes(rs)|))
  {
    WrittenWalked(b, at, rs);
    hide Written, RecordsParse, Entries, AllBytes, Handed, Asking;
    AskingAll(stops, before, Entries(rs, at));
    HandedAll(stops, before, Entries(rs, at));
  }

  /** Every packet with any lists of records in its three sections is walked as all of them, section after
      section, to their end, and handed to a callback that never stops. */
  lemma {:induction false} SectionsWalked(b: seq<byte>, onlyId: int, stops: Callback, first: nat,
                                          answers: seq<Rec>, authority: seq<Rec>, additional: seq<Rec>)
    requires BeginsAt(b, first) && (onlyId <= 0 || U16(b, 0) == onlyId) && NeverStops(stops)
    requires U16(b, 6) == |answers| && U16(b, 8) == |authority| && U16(b, 10) == |additional|
    requires Written(b, first, answers) && Written(b, first + |AllBytes(answers)|, authority)
    requires Written(b, first + |AllBytes(answers)| + |AllBytes(authority)|, additional)
    ensures var second := first + |AllBytes(answers)|; var third := second + |AllBytes(authority)|;
            QueryRecv(b, onlyId, stops)
            == Some((Entries(answers, first) + Entries(authority, second) + Entries(additional, third),
                     third + |AllBytes(additional)|))
  {
    hide Written, NeverStops, Section, Sections, Entries, AllBytes, BeginsAt, QueryRecv, U16;
    var second := first + |AllBytes(answers)|;
    var third := second + |AllBytes(authority)|;
    var a, u := Entries(answers, first), Entries(authority, second);
    QueryBegins(b, onlyId, stops, first);
    SectionWalked(b, first, answers, stops, []);
    SectionWalked(b, second, authority, stops, a);
    SectionWalked(b, third, additional, stops, a + u);
    Together(b, first, |answers|, |authority|, |additional|, stops, a, second, u, third,
             Entries(additional, third), third + |AllBytes(additional)|);
  }

  lemma QueryBegins(b: seq<byte>, onlyId: int, stops: Callback, first: nat)
    requires BeginsAt(b, first) && (onlyId <= 0 || U16(b, 0) == onlyId)
    ensures QueryRecv(b, onlyId, stops) == Sections(b, first, U16(b, 6), U16(b, 8), U16(b, 10), stops)
  {
    hide Sections, Skip, U16;
  }

  lemma Together(b: seq<byte>, first: nat, n: nat, m: nat, k: nat, stops: Callback,
                 a: seq<Entry>, second: nat, u: seq<Entry>, third: nat, d: seq<Entry>, end: nat)
    requires Section(b, first, n, stops, []) == Some((a, second)) && Section(b, second, m, stops, a) == Some((u, third))
    requires Section(b, third, k, stops, a + u) == Some((d, end))
    ensures Sections(b, first, n, m, k, stops) == Some((a + u + d, end))
  {
    hide Section;
  }

  /** A record whose name cannot be skipped is read from where the name begins, with a name of no bytes. */
  lemma BadNameStays(b: seq<byte>, offset: nat)
    requires Skip(b, offset) == None && offset + 10 <= |b|
    ensures var length := U16(b, offset + 8);
            RecordsParse(b, offset, 1)
            == Some(([Entry(offset, 0, U16(b, offset), U16(b, offset + 2),
                            0x1_0000 * U16(b, offset + 4) + U16(b, offset + 6), offset + 10, length)],
                     offset + 10 + length))
  {
    hide Skip, U16;
    var end := offset + 10 + U16(b, offset + 8);
    var e := EntryAt(b, offset, offset);
    assert RecordsParse(b, end, 0) == Some(([], end));
    assert [e] + [] == [e];
  }

  /** A packet that answers another query, or asks more than one question, is not walked at all. */
  lemma OtherPacketsIgnored(b: seq<byte>, onlyId: int, stops: Callback)
    requires |b| >= 12 && ((onlyId > 0 && U16(b, 0) != onlyId) || U16(b, 4) > 1)
    ensures QueryRecv(b, onlyId, stops) == Some(([], 0))
  {
    hide U16;
  }
}
