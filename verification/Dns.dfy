/** The DNS names of thirdpty/mdns/mdns.h: label encoding and compression (sections 3.1 and 4.1.4 of
    RFC 1035), the walkers that read names and the builders that write them. */
module Dns {
  import opened Common

  const DOT: byte := 46

  // ---------------------------------------------------------------- reading

  /** mdns_string_pair_t; `ref` says that the label was reached through a pointer. */
  datatype Pair = Invalid | Pair(offset: nat, length: nat, ref: bool)

  predicate IsRef(x: byte) {
    x >= 0xC0
  }

  function Target(hi: byte, lo: byte): nat {
    (hi as int % 64) * 256 + lo as int
  }

  /** The label at an offset, following one pointer. */
  function NextSubstring(b: seq<byte>, offset: nat): (p: Pair)
    ensures p.Pair? ==> p.offset + p.length <= |b|
    ensures p.Pair? && p.ref ==> offset + 2 <= |b| && 0 < p.offset
    ensures p.Pair? && !p.ref ==> p.offset == (if p.length == 0 then offset else offset + 1)
  {
    if offset >= |b| then Invalid
    else if b[offset] == 0 then Pair(offset, 0, false)
    else if IsRef(b[offset]) then
      if |b| < offset + 2 then Invalid
      else
        var t := Target(b[offset], b[offset + 1]);
        if t >= |b| || |b| < t + 1 + b[t] as int then Invalid
        else Pair(t + 1, b[t] as int, true)
    else if |b| < offset + 1 + b[offset] as int then Invalid
    else Pair(offset + 1, b[offset] as int, false)
  }

  /** mdns_string_skip: the offset after the name. */
  function Skip(b: seq<byte>, cur: nat): (r: Option<nat>)
    ensures r.Some? ==> cur < r.value <= |b|
    decreases |b| - cur
  {
    var p := NextSubstring(b, cur);
    if p.Invalid? then None
    else if p.ref then Some(cur + 2)
    else if p.length == 0 then Some(cur + 1)
    else Skip(b, p.offset + p.length)
  }

  /** The labels of a name. `Unguarded` when a pointer does not target an offset below the run of
      labels it ends, which is what keeps the walk from going round in circles. */
  datatype Walked = Labels(labels: seq<seq<byte>>) | Bad | Unguarded {
    function After(l: seq<byte>): Walked {
      if Labels? then Labels([l] + labels) else this
    }
  }

  function Walk(b: seq<byte>, start: nat, cur: nat): Walked
    decreases start, |b| - cur
  {
    var p := NextSubstring(b, cur);
    if p.Invalid? then Bad
    else if p.ref && p.offset - 1 >= start then Unguarded
    else if p.length == 0 then Labels([])
    else Walk(b, if p.ref then p.offset - 1 else start, p.offset + p.length).After(b[p.offset..p.offset + p.length])
  }

  // ---------------------------------------------------------------- when extraction ends

  /** Where a walker stands after n rounds, unless it has ended. */
  function Rounds(b: seq<byte>, cur: nat, n: nat): Option<nat>
    decreases n
  {
    if n == 0 then Some(cur)
    else
      var p := NextSubstring(b, cur);
      if p.Invalid? || p.length == 0 then None else Rounds(b, p.offset + p.length, n - 1)
  }

  /** What it has found when it ends within n rounds. */
  function Trace(b: seq<byte>, cur: nat, n: nat): Option<Walked>
    decreases n
  {
    if n == 0 then None
    else
      var p := NextSubstring(b, cur);
      if p.Invalid? then Some(Bad)
      else if p.length == 0 then Some(Labels([]))
      else
        match Trace(b, p.offset + p.length, n - 1)
        case None => None
        case Some(w) => Some(w.After(b[p.offset..p.offset + p.length]))
  }

  lemma {:induction false} TraceEnds(b: seq<byte>, cur: nat, n: nat)
    ensures Trace(b, cur, n).Some? <==> Rounds(b, cur, n).None?
    decreases n
  {
    hide NextSubstring;
    var p := NextSubstring(b, cur);
    if n > 0 && p.Pair? && p.length > 0 {
      TraceEnds(b, p.offset + p.length, n - 1);
    }
  }

  /** More rounds than needed change nothing. */
  lemma {:induction false} TraceMore(b: seq<byte>, cur: nat, n: nat, m: nat)
    requires Trace(b, cur, n).Some? && n <= m
    ensures Trace(b, cur, m) == Trace(b, cur, n)
    decreases n
  {
    hide NextSubstring;
    var p := NextSubstring(b, cur);
    if p.Pair? && p.length > 0 {
      TraceMore(b, p.offset + p.length, n - 1, m - 1);
    }
  }

  lemma {:induction false} RoundsSplit(b: seq<byte>, cur: nat, m: nat, n: nat)
    ensures Rounds(b, cur, m + n)
            == if Rounds(b, cur, m).None? then None else Rounds(b, Rounds(b, cur, m).value, n)
    decreases m
  {
    hide NextSubstring;
    var p := NextSubstring(b, cur);
    if m > 0 && p.Pair? && p.length > 0 {
      RoundsSplit(b, p.offset + p.length, m - 1, n);
    }
  }

  lemma RoundsBound(b: seq<byte>, cur: nat, n: nat)
    requires n > 0 && Rounds(b, cur, n).Some?
    ensures 1 <= Rounds(b, cur, n).value <= |b|
  {
    RoundsSplit(b, cur, n - 1, 1);
  }

  /** A walker that comes back to where it was never ends. */
  lemma {:induction false} RoundsRepeat(b: seq<byte>, cur: nat, i: nat, j: nat, n: nat)
    requires i < j && Rounds(b, cur, j).Some? && Rounds(b, cur, i) == Rounds(b, cur, j)
    ensures Rounds(b, cur, n).Some?
    decreases n
  {
    if n <= j {
      RoundsSplit(b, cur, n, j - n);
    } else {
      RoundsRepeat(b, cur, i, j, n - (j - i));
      RoundsSplit(b, cur, j, n - j);
      RoundsSplit(b, cur, i, n - j);
    }
  }

  lemma {:induction false} Pigeonhole(s: seq<nat>, m: nat) returns (i: nat, j: nat)
    requires |s| > m && forall k :: 0 <= k < |s| ==> 1 <= s[k] <= m
    ensures i < j < |s| && s[i] == s[j]
    decreases m
  {
    assert 1 <= s[0] <= m;
    if k :| 0 <= k < |s| && s[k] == m {
      if l :| 0 <= l < |s| && l != k && s[l] == m {
        i, j := if k < l then k else l, if k < l then l else k;
      } else {
        var t := s[..k] + s[k + 1..];
        i, j := Pigeonhole(t, m - 1);
        i, j := if i < k then i else i + 1, if j < k then j else j + 1;
      }
    } else {
      i, j := Pigeonhole(s, m - 1);
    }
  }

  /** The loop of mdns_string_extract ends at all if and only if it ends within as many rounds as the
      packet has bytes, and one more. */
  lemma TerminationExact(b: seq<byte>, cur: nat)
    ensures (exists n: nat :: Rounds(b, cur, n).None?) <==> Rounds(b, cur, |b| + 1).None?
  {
    hide Rounds;
    if Rounds(b, cur, |b| + 1).Some? {
      forall k: nat | k <= |b| + 1 ensures Rounds(b, cur, k).Some? {
        RoundsSplit(b, cur, k, |b| + 1 - k);
      }
      var s: seq<nat> := seq(|b| + 1, k requires 0 <= k <= |b| => Rounds(b, cur, k + 1).value);
      forall k | 0 <= k < |s| ensures 1 <= s[k] <= |b| {
        RoundsBound(b, cur, k + 1);
      }
      var i, j := Pigeonhole(s, |b|);
      assert s[i] == Rounds(b, cur, i + 1).value && s[j] == Rounds(b, cur, j + 1).value;
      forall n: nat ensures Rounds(b, cur, n).Some? {
        RoundsRepeat(b, cur, i + 1, j + 1, n);
      }
    }
  }

  /** It ends whenever each pointer targets an offset below the run of labels it ends ... */
  lemma {:induction false} GuardedEnds(b: seq<byte>, start: nat, cur: nat) returns (n: nat)
    requires !Walk(b, start, cur).Unguarded?
    ensures Trace(b, cur, n) == Some(Walk(b, start, cur))
    decreases start, |b| - cur
  {
    hide NextSubstring;
    var p := NextSubstring(b, cur);
    n := 1;
    if p.Pair? && p.length > 0 {
      var m := GuardedEnds(b, if p.ref then p.offset - 1 else start, p.offset + p.length);
      n := m + 1;
    }
  }

  /** ... and then it finds what the guarded walk finds. */
  lemma WalkIsTrace(b: seq<byte>, start: nat, cur: nat)
    requires !Walk(b, start, cur).Unguarded?
    ensures Trace(b, cur, |b| + 1) == Some(Walk(b, start, cur))
  {
    var n := GuardedEnds(b, start, cur);
    hide Walk, Trace, Rounds;
    TraceEnds(b, cur, n);
    TerminationExact(b, cur);
    TraceEnds(b, cur, |b| + 1);
    if n <= |b| + 1 {
      TraceMore(b, cur, n, |b| + 1);
    } else {
      TraceMore(b, cur, |b| + 1, n);
    }
  }

  /** Two inputs outside that condition: a label followed by a pointer to itself never ends, while a
      pointer forward to an end of name does. */
  lemma {:induction false} PointerLoops(x: byte, n: nat)
    ensures Walk([1, x, 0xC0, 0], 0, 0).Unguarded? && Rounds([1, x, 0xC0, 0], 2, n) == Some(2)
    ensures Walk([0xC0, 2, 0], 0, 0).Unguarded? && Trace([0xC0, 2, 0], 0, 4) == Some(Labels([]))
    decreases n
  {
    var b := [1, x, 0xC0, 0];
    assert NextSubstring(b, 0) == Pair(1, 1, false) && NextSubstring(b, 2) == Pair(1, 1, true);
    assert NextSubstring([0xC0, 2, 0], 0) == Pair(3, 0, true);
    if n > 0 {
      PointerLoops(x, n - 1);
    }
  }

  // ---------------------------------------------------------------- skipping and extracting

  /** The text of a name, every label followed by a dot. */
  function Dotted(labels: seq<seq<byte>>): seq<byte> {
    if labels == [] then [] else labels[0] + ([DOT] + Dotted(labels[1..]))
  }

  method StringSkip(b: seq<byte>, offset: nat) returns (next: Option<nat>)
    ensures next == Skip(b, offset)
  {
    var cur := offset;
    while true
      invariant Skip(b, offset) == Skip(b, cur)
      decreases |b| - cur
    {
      var p := NextSubstring(b, cur);
      if p.Invalid? {
        return None;
      }
      if p.ref {
        return Some(cur + 2);
      }
      if p.length == 0 {
        return Some(cur + 1);
      }
      cur := p.offset + p.length;
    }
  }

  /** A name that can be extracted can be skipped. */
  lemma {:induction false} TracedIsSkipped(b: seq<byte>, cur: nat, n: nat)
    requires Trace(b, cur, n).Some? && Trace(b, cur, n).value.Labels?
    ensures Skip(b, cur).Some?
    decreases n
  {
    hide NextSubstring;
    var p := NextSubstring(b, cur);
    if !p.ref && p.length > 0 {
      TracedIsSkipped(b, p.offset + p.length, n - 1);
    }
  }

  // ---------------------------------------------------------------- extracting

  /** What fits of a text. */
  function Fit(text: seq<byte>, capacity: nat): seq<byte> {
    if |text| <= capacity then text else text[..capacity]
  }

  lemma {:induction false} DottedAppend(a: seq<seq<byte>>, b: seq<seq<byte>>)
    ensures Dotted(a + b) == Dotted(a) + Dotted(b)
  {
    if a == [] {
      assert a + b == b;
    } else {
      DottedAppend(a[1..], b);
      assert (a + b)[0] == a[0] && (a + b)[1..] == a[1..] + b;
      Reassociate(a[0], Dotted(a[1..]), Dotted(b));
    }
  }

  lemma Reassociate(x: seq<byte>, y: seq<byte>, z: seq<byte>)
    ensures x + ([DOT] + (y + z)) == x + ([DOT] + y) + z
  {
  }

  /** Copying one more label and its dot into what remains of the buffer. */
  lemma FitMore(text: seq<byte>, word: seq<byte>, capacity: nat)
    ensures var had := Fit(text, capacity);
            var copied := Fit(word, capacity - |had|);
            Fit(text + (word + [DOT]), capacity)
            == had + copied + (if |had| + |copied| < capacity then [DOT] else [])
  {
    var had := Fit(text, capacity);
    var copied := Fit(word, capacity - |had|);
    if |text| <= capacity {
      if |text| + |word| < capacity {
        assert text + (word + [DOT]) == text + word + [DOT];
      } else {
        assert (text + (word + [DOT]))[..capacity] == text + word[..capacity - |text|];
        assert |word| <= capacity - |text| ==> word[..capacity - |text|] == word;
      }
    } else {
      assert (text + (word + [DOT]))[..capacity] == text[..capacity];
      assert copied == [];
    }
  }

  /** One round of the walkers. */
  lemma TraceStep(b: seq<byte>, cur: nat, n: nat)
    requires Trace(b, cur, n).Some?
    ensures n > 0 && var p := NextSubstring(b, cur);
            && (p.Invalid? ==> Trace(b, cur, n) == Some(Bad))
            && (p.Pair? ==>
                  && Skip(b, cur) == (if p.ref then Some(cur + 2)
                                      else if p.length == 0 then Some(p.offset + 1)
                                      else Skip(b, p.offset + p.length))
                  && (p.length == 0 ==> Trace(b, cur, n) == Some(Labels([])))
                  && (p.length > 0 ==>
                        var rest := Trace(b, p.offset + p.length, n - 1);
                        && rest.Some?
                        && Trace(b, cur, n) == Some(rest.value.After(b[p.offset..p.offset + p.length]))))
  {
  }

  /** mdns_string_extract, wherever its loop ends: the text of the name, cut at the capacity of the
      buffer, and the offset after the name; nothing when the name is malformed. */
  method StringExtract(b: seq<byte>, offset: nat, str: array<byte>) returns (length: nat, next: nat)
    requires Trace(b, offset, |b| + 1).Some?
    modifies str
    ensures var w := Trace(b, offset, |b| + 1).value;
            && length <= str.Length
            && (w.Bad? ==> length == 0 && next == offset)
            && (w.Labels? ==> str[..length] == Fit(Dotted(w.labels), str.Length) && Skip(b, offset) == Some(next))
  {
    hide Dotted, Fit, Before, Trace, Skip, NextSubstring;
    var cur: nat, pos: nat := offset, 0;
    var end: Option<nat> := None;
    ghost var n: nat, seen: seq<seq<byte>> := |b| + 1, [];
    ghost var w := Trace(b, offset, |b| + 1).value;
    NothingSeen(w, str.Length);
    while true
      invariant pos <= str.Length
      invariant Trace(b, cur, n).Some? && w == Before(seen, Trace(b, cur, n).value)
      invariant str[..pos] == Fit(Dotted(seen), str.Length)
      invariant if end.Some? then Skip(b, offset) == end else Skip(b, offset) == Skip(b, cur)
      decreases n
    {
      var p := NextSubstring(b, cur);
      TraceStep(b, cur, n);
      StillBad(seen, Trace(b, cur, n).value);
      if p.Invalid? {
        return 0, offset;
      }
      if p.ref && end.None? {
        end := Some(cur + 2);
      }
      if p.length == 0 {
        if end.None? {
          end := Some(p.offset + 1);
        }
        BeforeNothing(seen);
        return pos, end.value;
      }
      n := n - 1;
      cur := p.offset + p.length;
      var word := b[p.offset..p.offset + p.length];
      BeforeOne(seen, word, Trace(b, cur, n).value);
      DottedOne(seen, word);
      FitMore(Dotted(seen), word, str.Length);
      pos := AppendWord(str, pos, word);
      seen := seen + [word];
    }
  }

  /** The memcpy and the dot of mdns_string_extract. */
  method AppendWord(str: array<byte>, pos: nat, word: seq<byte>) returns (next: nat)
    requires pos <= str.Length
    modifies str
    ensures pos <= next <= str.Length
    ensures var copied := Fit(word, str.Length - pos);
            str[..next] == old(str[..pos]) + copied + (if pos + |copied| < str.Length then [DOT] else [])
  {
    var copied := Fit(word, str.Length - pos);
    Copy(str, pos, copied);
    next := pos + |copied|;
    assert str[..next] == old(str[..pos]) + copied;
    if next < str.Length {
      str[next] := DOT;
      next := next + 1;
    }
  }

  function Before(seen: seq<seq<byte>>, w: Walked): Walked {
    if w.Labels? then Labels(seen + w.labels) else w
  }

  lemma BeforeNothing(seen: seq<seq<byte>>)
    ensures Before(seen, Labels([])) == Labels(seen)
  {
    assert seen + [] == seen;
  }

  lemma BeforeOne(seen: seq<seq<byte>>, word: seq<byte>, w: Walked)
    ensures Before(seen, w.After(word)) == Before(seen + [word], w)
  {
    if w.Labels? {
      assert seen + ([word] + w.labels) == seen + [word] + w.labels;
    }
  }

  lemma NothingSeen(w: Walked, capacity: nat)
    ensures Fit(Dotted([]), capacity) == [] && Before([], w) == w
  {
    if w.Labels? {
      assert [] + w.labels == w.labels;
    }
  }

  lemma StillBad(seen: seq<seq<byte>>, w: Walked)
    ensures Before(seen, w).Labels? <==> w.Labels?
    ensures !w.Labels? ==> Before(seen, w) == w
  {
  }

  lemma DottedOne(seen: seq<seq<byte>>, word: seq<byte>)
    ensures Dotted(seen + [word]) == Dotted(seen) + (word + [DOT])
  {
    DottedAppend(seen, [word]);
    assert [word][1..] == [];
    assert Dotted([word]) == word + [DOT];
  }
}
