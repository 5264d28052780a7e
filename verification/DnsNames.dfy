/** Writing DNS names, and reading back what was written. */
module DnsNames {
  import opened Common
  import opened Dns

  // ---------------------------------------------------------------- writing

  /** mdns_string_find for the dot. */
  function Find(name: seq<byte>, from: nat): (r: Option<nat>)
    ensures r.Some? ==> from <= r.value < |name| && name[r.value] == DOT && DOT !in name[from..r.value]
    ensures r.None? && from <= |name| ==> DOT !in name[from..]
    decreases |name| - from
  {
    if from >= |name| then None
    else if name[from] == DOT then Some(from)
    else Find(name, from + 1)
  }

  /** The pieces of a name between dots; a dot at the end adds none. */
  function Pieces(name: seq<byte>, from: nat): seq<seq<byte>>
    decreases |name| - from
  {
    if from >= |name| then []
    else match Find(name, from)
         case None => [name[from..]]
         case Some(p) => [name[from..p]] + Pieces(name, p + 1)
  }

  function Wire(labels: seq<seq<byte>>): seq<byte> {
    if labels == [] then [] else [|labels[0]| % 256] + (labels[0] + Wire(labels[1..]))
  }

  /** What mdns_string_make writes for a name given as text. */
  function NameBytes(name: seq<byte>): (r: seq<byte>)
    ensures |r| >= 1
  {
    Wire(Pieces(name, 0)) + [0]
  }

  function RefBytes(offset: nat): (r: seq<byte>)
    ensures |r| == 2
  {
    [0xC0 + (offset % 0x4000) / 256, offset % 256]
  }

  lemma {:induction false} WireAppend(a: seq<seq<byte>>, b: seq<seq<byte>>)
    ensures Wire(a + b) == Wire(a) + Wire(b)
  {
    if a == [] {
      assert a + b == b;
    } else {
      WireAppend(a[1..], b);
      assert (a + b)[0] == a[0] && (a + b)[1..] == a[1..] + b;
      Regroup([|a[0]| % 256], a[0], Wire(a[1..]), Wire(b));
    }
  }

  lemma Regroup(w: seq<byte>, x: seq<byte>, y: seq<byte>, z: seq<byte>)
    ensures w + (x + (y + z)) == w + (x + y) + z
  {
  }

  lemma WireOne(l: seq<byte>)
    ensures Wire([l]) == [|l| % 256] + l
  {
    assert [l][1..] == [];
    assert l + [] == l;
  }

  /** A buffer with w written at an offset. */
  function Image(before: seq<byte>, at: nat, w: seq<byte>): (r: seq<byte>)
    requires at + |w| <= |before|
    ensures |r| == |before|
  {
    before[..at] + w + before[at + |w|..]
  }

  lemma ImageGrows(before: seq<byte>, at: nat, w: seq<byte>, x: seq<byte>)
    requires at + |w| + |x| <= |before|
    ensures Image(Image(before, at, w), at + |w|, x) == Image(before, at, w + x)
  {
  }

  lemma ImageOfNothing(before: seq<byte>, at: nat)
    requires at <= |before|
    ensures Image(before, at, []) == before
  {
  }

  lemma WireLast(seen: seq<seq<byte>>, piece: seq<byte>)
    ensures Wire(seen + [piece]) == Wire(seen) + ([|piece| % 256] + piece)
  {
    WireAppend(seen, [piece]);
    WireOne(piece);
  }

  /** The length byte and the label, when they fit with room to spare. */
  method PutLabel(buf: array<byte>, dest: nat, remain: nat, piece: seq<byte>,
                  ghost before: seq<byte>, ghost at: nat, ghost seen: seq<seq<byte>>) returns (ok: bool)
    requires dest + remain <= buf.Length && dest == at + |Wire(seen)| && |before| == buf.Length
    requires buf[..] == Image(before, at, Wire(seen))
    modifies buf
    ensures ok <==> |piece| < remain
    ensures |Wire(seen + [piece])| == |Wire(seen)| + 1 + |piece|
    ensures ok ==> buf[..] == Image(before, at, Wire(seen + [piece]))
    ensures !ok ==> buf[..] == old(buf[..])
  {
    hide Image, Wire;
    WireLast(seen, piece);
    var bytes := [|piece| % 256] + piece;
    if |piece| < remain {
      ImageGrows(before, at, Wire(seen), bytes);
      Put(buf, dest, bytes);
      return true;
    }
    return false;
  }

  method Put(buf: array<byte>, at: nat, bytes: seq<byte>)
    requires at + |bytes| <= buf.Length
    modifies buf
    ensures buf[..] == Image(old(buf[..]), at, bytes)
  {
    Copy(buf, at, bytes);
  }

  lemma ImagePrefix(before: seq<byte>, at: nat, w: seq<byte>)
    requires at + |w| <= |before|
    ensures Image(before, at, w)[..at] == before[..at]
  {
  }

  /** The two steps of mdns_string_make that write labels: the pieces before a dot, then what is
      left. */
  method PutPieces(buf: array<byte>, at: nat, capacity: nat, name: seq<byte>) returns (dest: Option<nat>)
    requires at + capacity <= buf.Length
    modifies buf
    ensures dest.Some? <==> |Wire(Pieces(name, 0))| <= capacity
    ensures dest.Some? ==> dest.value == at + |Wire(Pieces(name, 0))|
    ensures dest.Some? ==> buf[..] == Image(old(buf[..]), at, Wire(Pieces(name, 0)))
    ensures buf[..at] == old(buf[..])[..at]
  {
    hide Image, Wire;
    ghost var before: seq<byte>, seen: seq<seq<byte>> := buf[..], [];
    var last: nat, next: nat, remain: nat := 0, at, capacity;
    assert [] + Pieces(name, 0) == Pieces(name, 0);
    ImageOfNothing(before, at);
    WireNothing();
    while last < |name| && Find(name, last).Some?
      invariant Pieces(name, 0) == seen + Pieces(name, last)
      invariant |Wire(seen)| <= capacity && next == at + |Wire(seen)| && remain == capacity - |Wire(seen)|
      invariant buf[..] == Image(before, at, Wire(seen))
      decreases |name| - last
    {
      var pos := Find(name, last).value;
      var piece := name[last..pos];
      TakePiece(seen, piece, Pieces(name, pos + 1));
      ImagePrefix(before, at, Wire(seen));
      var ok := PutLabel(buf, next, remain, piece, before, at, seen);
      if !ok {
        return None;
      }
      next, remain := next + |piece| + 1, remain - |piece| - 1;
      seen := seen + [piece];
      last := pos + 1;
    }
    ImagePrefix(before, at, Wire(seen));
    if last < |name| {
      var ok := PutLabel(buf, next, remain, name[last..], before, at, seen);
      if !ok {
        return None;
      }
      next := next + |name[last..]| + 1;
      seen := seen + [name[last..]];
      ImagePrefix(before, at, Wire(seen));
    } else {
      assert seen + [] == seen;
    }
    dest := Some(next);
  }

  lemma TakePiece(seen: seq<seq<byte>>, piece: seq<byte>, more: seq<seq<byte>>)
    ensures seen + ([piece] + more) == seen + [piece] + more
    ensures |Wire(seen + ([piece] + more))| >= |Wire(seen + [piece])|
  {
    assert seen + ([piece] + more) == seen + [piece] + more;
    WireAppend(seen + [piece], more);
  }

  /** mdns_string_make: it succeeds exactly when the encoded name fits. */
  method StringMake(buf: array<byte>, at: nat, capacity: nat, name: seq<byte>) returns (next: Option<nat>)
    requires at + capacity <= buf.Length
    modifies buf
    ensures next.Some? <==> |NameBytes(name)| <= capacity
    ensures next.Some? ==> next.value == at + |NameBytes(name)|
    ensures next.Some? ==> buf[..] == Image(old(buf[..]), at, NameBytes(name))
    ensures buf[..at] == old(buf[..])[..at]
  {
    hide Image, Wire, Pieces;
    ghost var before, wire := buf[..], Wire(Pieces(name, 0));
    var dest := PutPieces(buf, at, capacity, name);
    if dest.None? || dest.value == at + capacity {
      return None;
    }
    ImageGrows(before, at, wire, [0]);
    ImagePrefix(before, at, wire + [0]);
    Put(buf, dest.value, [0]);
    next := Some(dest.value + 1);
  }

  lemma WireNothing()
    ensures Wire([]) == []
  {
  }

  /** mdns_string_make_ref. */
  method StringMakeRef(buf: array<byte>, at: nat, capacity: nat, offset: nat) returns (next: Option<nat>)
    requires at + capacity <= buf.Length
    modifies buf
    ensures next == if capacity < 2 then None else Some(at + 2)
    ensures buf[..] == if capacity < 2 then old(buf[..]) else Image(old(buf[..]), at, RefBytes(offset))
  {
    if capacity < 2 {
      return None;
    }
    Put(buf, at, RefBytes(offset));
    next := Some(at + 2);
  }

  /** The outcome of mdns_string_make_with_ref. `Wild`: the name did not fit; the code then goes on
      with a null pointer. */
  datatype Made = Next(at: nat) | Null | Wild

  /** The labels of a name followed by a pointer in place of the final zero. */
  function TailedBytes(name: seq<byte>, offset: nat): seq<byte> {
    Wire(Pieces(name, 0)) + RefBytes(offset)
  }

  method StringMakeWithRef(buf: array<byte>, at: nat, capacity: nat, name: seq<byte>, offset: nat) returns (next: Made)
    requires at + capacity <= buf.Length
    modifies buf
    ensures var n := |TailedBytes(name, offset)|;
            next == if n <= capacity then Next(at + n) else if n == capacity + 1 then Null else Wild
    ensures next.Next? ==> buf[..] == Image(old(buf[..]), at, TailedBytes(name, offset))
    ensures buf[..at] == old(buf[..])[..at]
  {
    hide Wire, Pieces, Image, RefBytes;
    ghost var before, wire := buf[..], Wire(Pieces(name, 0));
    var made := StringMake(buf, at, capacity, name);
    if made.None? {
      return Wild;
    }
    var used := made.value - at;
    if capacity - used == 0 {
      return Null;
    }
    var end := StringMakeRef(buf, made.value - 1, capacity - used + 1, offset);
    next := Next(end.value);
    ReplaceEnd(before, at, wire, [0], RefBytes(offset));
    ImagePrefix(before, at, wire + RefBytes(offset));
  }

  lemma ReplaceEnd(before: seq<byte>, at: nat, w: seq<byte>, x: seq<byte>, y: seq<byte>)
    requires |x| <= |y| && at + |w| + |y| <= |before|
    ensures Image(Image(before, at, w + x), at + |w|, y) == Image(before, at, w + y)
  {
  }

  // ---------------------------------------------------------------- reading back

  ghost predicate Has(b: seq<byte>, pos: nat, piece: seq<byte>) {
    pos + |piece| <= |b| && b[pos..pos + |piece|] == piece
  }

  lemma HasParts(b: seq<byte>, pos: nat, x: seq<byte>, y: seq<byte>)
    requires Has(b, pos, x + y)
    ensures Has(b, pos, x) && Has(b, pos + |x|, y)
  {
    var piece := x + y;
    assert b[pos..pos + |x|] == piece[..|x|] == x;
    assert b[pos + |x|..pos + |x| + |y|] == piece[|x|..] == y;
  }

  predicate Good(labels: seq<seq<byte>>) {
    forall i :: 0 <= i < |labels| ==> 1 <= |labels[i]| <= 63
  }

  lemma HasLabel(b: seq<byte>, pos: nat, l: seq<byte>, rest: seq<byte>)
    requires 1 <= |l| <= 63 && Has(b, pos, [|l| % 256] + (l + rest))
    ensures NextSubstring(b, pos) == Pair(pos + 1, |l|, false)
    ensures b[pos + 1..pos + 1 + |l|] == l && Has(b, pos + 1 + |l|, rest)
  {
    HasParts(b, pos, [|l| % 256], l + rest);
    HasParts(b, pos + 1, l, rest);
    assert b[pos] == b[pos..pos + 1][0] == |l|;
  }

  /** Both walkers pass over a run of labels. */
  lemma {:induction false} RunOfLabels(b: seq<byte>, start: nat, pos: nat, labels: seq<seq<byte>>)
    requires Good(labels) && Has(b, pos, Wire(labels))
    ensures var end := pos + |Wire(labels)|;
            && Walk(b, start, pos) == Before(labels, Walk(b, start, end))
            && Skip(b, pos) == Skip(b, end)
    decreases |labels|
  {
    hide Walk, Skip, NextSubstring, Before, Has;
    if labels == [] {
      NothingSeen(Walk(b, start, pos), 0);
    } else {
      var l, rest := labels[0], labels[1..];
      HasLabel(b, pos, l, Wire(rest));
      var next, end := pos + 1 + |l|, pos + |Wire(labels)|;
      RunOfLabels(b, start, next, rest);
      assert next + |Wire(rest)| == end;
      hide Wire;
      LabelStep(b, start, pos, l);
      BeforeMore(l, rest, Walk(b, start, end));
      assert [l] + rest == labels;
    }
  }

  lemma LabelStep(b: seq<byte>, start: nat, pos: nat, l: seq<byte>)
    requires l != [] && NextSubstring(b, pos) == Pair(pos + 1, |l|, false) && b[pos + 1..pos + 1 + |l|] == l
    ensures Walk(b, start, pos) == Walk(b, start, pos + 1 + |l|).After(l)
    ensures Skip(b, pos) == Skip(b, pos + 1 + |l|)
  {
  }

  lemma BeforeMore(l: seq<byte>, rest: seq<seq<byte>>, w: Walked)
    ensures Before(rest, w).After(l) == Before([l] + rest, w)
  {
    if w.Labels? {
      assert [l] + (rest + w.labels) == [l] + rest + w.labels;
    }
  }

  /** A name written out in full. */
  lemma FullName(b: seq<byte>, start: nat, pos: nat, labels: seq<seq<byte>>)
    requires Good(labels) && Has(b, pos, Wire(labels) + [0])
    ensures Walk(b, start, pos) == Labels(labels)
    ensures Skip(b, pos) == Some(pos + |Wire(labels)| + 1)
  {
    HasParts(b, pos, Wire(labels), [0]);
    var end := pos + |Wire(labels)|;
    assert b[end] == b[end..end + 1][0] == 0;
    RunOfLabels(b, start, pos, labels);
    BeforeNothing(labels);
  }

  /** A name that starts with a label, as a pointer target must. */
  ghost predicate NameAt(b: seq<byte>, t: nat, labels: seq<seq<byte>>) {
    t < |b| && 0 < b[t] < 0xC0 && Walk(b, t, t) == Labels(labels)
  }

  lemma TargetOfRef(t: nat)
    requires t < 0x4000
    ensures IsRef(RefBytes(t)[0]) && Target(RefBytes(t)[0], RefBytes(t)[1]) == t
  {
  }

  lemma RefNext(b: seq<byte>, pos: nat, t: nat)
    requires Has(b, pos, RefBytes(t)) && t < 0x4000 && t < |b| && t + 1 + b[t] as int <= |b|
    ensures NextSubstring(b, pos) == Pair(t + 1, b[t] as int, true)
  {
    TargetOfRef(t);
    hide RefBytes, Target;
    assert b[pos] == b[pos..pos + 2][0] && b[pos + 1] == b[pos..pos + 2][1];
  }

  lemma FollowRef(b: seq<byte>, start: nat, pos: nat, t: nat, labels: seq<seq<byte>>)
    requires Has(b, pos, RefBytes(t)) && t < start && t < 0x4000 && NameAt(b, t, labels)
    ensures Walk(b, start, pos) == Labels(labels) && Skip(b, pos) == Some(pos + 2)
  {
    hide Has, RefBytes;
    assert NextSubstring(b, t) == Pair(t + 1, b[t] as int, false);
    RefNext(b, pos, t);
    hide NextSubstring;
  }

  /** A name whose tail is a pointer to a name before it. */
  lemma TailedName(b: seq<byte>, pos: nat, labels: seq<seq<byte>>, t: nat, tail: seq<seq<byte>>)
    requires Good(labels) && Has(b, pos, Wire(labels) + RefBytes(t)) && t < pos && t < 0x4000 && NameAt(b, t, tail)
    ensures Walk(b, pos, pos) == Labels(labels + tail)
    ensures Skip(b, pos) == Some(pos + |Wire(labels)| + 2)
  {
    hide Walk, Skip, Has, RefBytes, Wire, NameAt, Good;
    HasParts(b, pos, Wire(labels), RefBytes(t));
    FollowRef(b, pos, pos + |Wire(labels)|, t, tail);
    RunOfLabels(b, pos, pos, labels);
  }

  // ---------------------------------------------------------------- names as text

  /** The text comes back with exactly one dot at its end. */
  function Closed(name: seq<byte>): seq<byte>
    requires name != []
  {
    if name[|name| - 1] == DOT then name else name + [DOT]
  }

  lemma {:induction false} DottedPieces(name: seq<byte>, from: nat)
    requires from < |name|
    ensures |Closed(name)| >= |name| && Dotted(Pieces(name, from)) == Closed(name)[from..]
    decreases |name| - from
  {
    hide Closed, Dotted, Find;
    match Find(name, from) {
      case None =>
        DottedCons(name[from..], []);
        ClosedLast(name, from);
      case Some(p) =>
        DottedCons(name[from..p], Pieces(name, p + 1));
        ClosedAt(name, from, p);
        if p + 1 < |name| {
          DottedPieces(name, p + 1);
        }
    }
  }

  lemma DottedCons(x: seq<byte>, rest: seq<seq<byte>>)
    ensures Dotted([x] + rest) == x + ([DOT] + Dotted(rest)) && Dotted([]) == [] && [x] + [] == [x]
  {
    assert ([x] + rest)[1..] == rest;
  }

  lemma ClosedLast(name: seq<byte>, from: nat)
    requires from < |name| && DOT !in name[from..]
    ensures |Closed(name)| >= |name| && Closed(name)[from..] == name[from..] + ([DOT] + [])
  {
    assert name[|name| - 1] == name[from..][|name| - 1 - from];
  }

  lemma ClosedAt(name: seq<byte>, from: nat, p: nat)
    requires from <= p < |name| && name[p] == DOT
    ensures |Closed(name)| >= |name| && Closed(name)[from..] == name[from..p] + ([DOT] + Closed(name)[p + 1..])
    ensures p + 1 == |name| ==> Closed(name)[p + 1..] == []
  {
  }

  /** Extracting inverts making, up to the trailing dot, wherever the name lies in a packet; and the
      offset moves past exactly the bytes that were written. */
  lemma ExtractInvertsMake(b: seq<byte>, pos: nat, name: seq<byte>)
    requires name != [] && Good(Pieces(name, 0)) && Has(b, pos, NameBytes(name))
    ensures Walk(b, pos, pos) == Labels(Pieces(name, 0)) && Dotted(Pieces(name, 0)) == Closed(name)
    ensures Skip(b, pos) == Some(pos + |NameBytes(name)|)
  {
    FullName(b, pos, pos, Pieces(name, 0));
    DottedPieces(name, 0);
    assert Closed(name)[0..] == Closed(name);
  }

  /** The same for a name with a compressed tail. */
  lemma ExtractInvertsMakeWithRef(b: seq<byte>, pos: nat, name: seq<byte>, t: nat, tail: seq<seq<byte>>)
    requires name != [] && Good(Pieces(name, 0)) && Has(b, pos, TailedBytes(name, t))
    requires t < pos && t < 0x4000 && NameAt(b, t, tail)
    ensures var w := Walk(b, pos, pos);
            && w == Labels(Pieces(name, 0) + tail) && Dotted(w.labels) == Closed(name) + Dotted(tail)
    ensures Skip(b, pos) == Some(pos + |TailedBytes(name, t)|)
  {
    hide Walk, Skip, NameAt, Has, Dotted, Wire, Pieces, Good, RefBytes;
    TailedName(b, pos, Pieces(name, 0), t, tail);
    DottedPieces(name, 0);
    assert Closed(name)[0..] == Closed(name);
    DottedAppend(Pieces(name, 0), tail);
  }

  /** Stripping the service suffix, as the discovery callback does, recovers the device name. */
  lemma StripRecoversDevice(device: seq<byte>, service: seq<byte>, capacity: nat)
    requires device != [] && device[|device| - 1] != DOT && service != [] && service[|service| - 1] != DOT
    requires |device| + |service| + 2 <= capacity
    ensures var text := Fit(Dotted(Pieces(device, 0) + Pieces(service, 0)), capacity);
            && |text| - |service| - 2 >= 0 && text[..|text| - |service| - 2] == device
  {
    hide Pieces, Dotted;
    DottedPieces(device, 0);
    DottedPieces(service, 0);
    DottedAppend(Pieces(device, 0), Pieces(service, 0));
    assert Closed(device)[0..] == device + [DOT] && Closed(service)[0..] == service + [DOT];
    hide Closed;
    StripText(device, service);
  }

  lemma StripText(x: seq<byte>, y: seq<byte>)
    ensures var text := x + [DOT] + (y + [DOT]);
            |text| == |x| + |y| + 2 && text[..|text| - |y| - 2] == x
  {
  }
}
